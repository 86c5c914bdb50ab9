/** The aggregator's mailbox protocol (aggregator.h) as a step system. Operations live at
    addresses that are used again once their thread has returned, so a compare-and-swap may
    succeed on a mailbox that changed in between. */
module Aggregator {

  type Tid = nat
  type Addr = nat

  datatype Ptr = Null | At(a: Addr)

  /** Where a thread is in execute_impl; `op` is the address of its operation. */
  datatype PC =
    | Idle
    | Read(op: Addr)                              // about to read the mailbox
    | Cas(op: Addr, res: Ptr)                     // has linked its operation to what it read
    | Await(op: Addr)                             // first in the list; waits for handler_busy
    | Seize(op: Addr)                             // has seen handler_busy == 0
    | Grab(op: Addr)                              // has set handler_busy
    | Loop(op: Addr, cur: Ptr)                    // handle_operations
    | Apply(op: Addr, req: Addr, rest: Ptr)       // has advanced past the request
    | Finish(op: Addr, req: Addr, rest: Ptr)      // has applied its body
    | Release(op: Addr)                           // about to clear handler_busy
    | Spin(op: Addr)                              // not first; waits for its status
    | Leave(op: Addr)                             // about to return

  /** The mailbox, the flag, the operations in memory and the threads. The last four fields
      are auxiliary: no guard reads them. */
  datatype State = State(
    mailbox: Ptr,
    busy: bool,
    next: map<Addr, Ptr>,
    finished: map<Addr, bool>,
    pc: map<Tid, PC>,
    applied: map<Addr, nat>,     // how often the body of the operation was applied
    owner: map<Addr, Tid>,       // the thread that entered the operation
    queue: seq<Addr>,            // what the mailbox leads to
    work: seq<Addr>,             // what the handler has not finished
    handler: Tid                 // the last thread that set handler_busy
  )

  predicate Init(s: State) {
    && s.mailbox == Null && !s.busy && s.queue == [] && s.work == []
    && forall t :: t in s.pc ==> s.pc[t] == Idle
  }

  // ----- steps

  function Goto(s: State, t: Tid, pc: PC): State { s.(pc := s.pc[t := pc]) }

  /** A thread enters an operation at an address no thread is using. */
  predicate Begin(s: State, t: Tid, a: Addr, s': State) {
    && t in s.pc && s.pc[t].Idle?
    && (forall u :: u in s.pc && !s.pc[u].Idle? ==> s.pc[u].op != a)
    && s' == Goto(s, t, Read(a)).(next := s.next[a := Null], finished := s.finished[a := false],
                                  applied := s.applied[a := 0], owner := s.owner[a := t])
  }

  predicate ReadMailbox(s: State, t: Tid, s': State) {
    && t in s.pc && s.pc[t].Read?
    && s' == Goto(s, t, Cas(s.pc[t].op, s.mailbox)).(next := s.next[s.pc[t].op := s.mailbox])
  }

  predicate CasFails(s: State, t: Tid, s': State) {
    && t in s.pc && s.pc[t].Cas? && s.mailbox != s.pc[t].res
    && s' == Goto(s, t, Read(s.pc[t].op))
  }

  predicate CasSucceeds(s: State, t: Tid, s': State) {
    && t in s.pc && s.pc[t].Cas? && s.mailbox == s.pc[t].res
    && var op := s.pc[t].op;
       s' == Goto(s, t, if s.pc[t].res == Null then Await(op) else Spin(op))
               .(mailbox := At(op), queue := [op] + s.queue)
  }

  predicate SeesFree(s: State, t: Tid, s': State) {
    && t in s.pc && s.pc[t].Await? && !s.busy
    && s' == Goto(s, t, Seize(s.pc[t].op))
  }

  predicate SetsBusy(s: State, t: Tid, s': State) {
    && t in s.pc && s.pc[t].Seize?
    && s' == Goto(s, t, Grab(s.pc[t].op)).(busy := true, handler := t)
  }

  predicate GrabsList(s: State, t: Tid, s': State) {
    && t in s.pc && s.pc[t].Grab?
    && s' == Goto(s, t, Loop(s.pc[t].op, s.mailbox)).(mailbox := Null, queue := [], work := s.queue)
  }

  predicate TakesNext(s: State, t: Tid, s': State) {
    && t in s.pc && s.pc[t].Loop? && s.pc[t].cur.At? && s.pc[t].cur.a in s.next
    && s' == Goto(s, t, Apply(s.pc[t].op, s.pc[t].cur.a, s.next[s.pc[t].cur.a]))
  }

  predicate ListEnds(s: State, t: Tid, s': State) {
    && t in s.pc && s.pc[t].Loop? && s.pc[t].cur == Null
    && s' == Goto(s, t, Release(s.pc[t].op))
  }

  predicate AppliesBody(s: State, t: Tid, s': State) {
    && t in s.pc && s.pc[t].Apply? && s.pc[t].req in s.applied
    && var p := s.pc[t];
       s' == Goto(s, t, Finish(p.op, p.req, p.rest)).(applied := s.applied[p.req := s.applied[p.req] + 1])
  }

  predicate Finishes(s: State, t: Tid, s': State) {
    && t in s.pc && s.pc[t].Finish?
    && var p := s.pc[t];
       s' == Goto(s, t, Loop(p.op, p.rest))
               .(finished := s.finished[p.req := true], work := if s.work == [] then [] else s.work[1..])
  }

  predicate ClearsBusy(s: State, t: Tid, s': State) {
    && t in s.pc && s.pc[t].Release?
    && s' == Goto(s, t, Leave(s.pc[t].op)).(busy := false)
  }

  predicate SeesFinished(s: State, t: Tid, s': State) {
    && t in s.pc && s.pc[t].Spin? && s.pc[t].op in s.finished && s.finished[s.pc[t].op]
    && s' == Goto(s, t, Leave(s.pc[t].op))
  }

  predicate Returns(s: State, t: Tid, s': State) {
    && t in s.pc && s.pc[t].Leave?
    && s' == Goto(s, t, Idle)
  }

  /** A step of a thread inside execute_impl. */
  predicate Works(s: State, t: Tid, s': State) {
    || ReadMailbox(s, t, s') || CasFails(s, t, s') || CasSucceeds(s, t, s')
    || SeesFree(s, t, s') || SetsBusy(s, t, s') || GrabsList(s, t, s')
    || TakesNext(s, t, s') || ListEnds(s, t, s') || AppliesBody(s, t, s') || Finishes(s, t, s') || ClearsBusy(s, t, s')
    || SeesFinished(s, t, s') || Returns(s, t, s')
  }

  ghost predicate Step(s: State, t: Tid, s': State) { Works(s, t, s') || exists a :: Begin(s, t, a, s') }

  // ----- invariant

  /** `p` leads to exactly the operations of `l`. */
  predicate Linked(next: map<Addr, Ptr>, p: Ptr, l: seq<Addr>) {
    && p == Head(l)
    && forall i :: 0 <= i < |l| ==> l[i] in next && next[l[i]] == Head(l[i + 1..])
  }

  function Head(l: seq<Addr>): Ptr { if l == [] then Null else At(l[0]) }

  predicate Waiting(p: PC) { p.Await? || p.Seize? || p.Grab? }

  predicate Inside(p: PC) { p.Grab? || p.Loop? || p.Apply? || p.Finish? || p.Release? }

  /** Inside handle_operations, that is, past taking the list. */
  predicate Handling(p: PC) { p.Loop? || p.Apply? || p.Finish? }

  predicate OwnersApart(s: State) {
    && (forall t, u :: t in s.pc && u in s.pc && t != u && !s.pc[t].Idle? && !s.pc[u].Idle?
         ==> s.pc[t].op != s.pc[u].op)
    && (forall t :: t in s.pc && !s.pc[t].Idle? ==> Known(s, s.pc[t].op) && s.owner[s.pc[t].op] == t)
  }

  predicate Known(s: State, a: Addr) { a in s.next && a in s.finished && a in s.applied && a in s.owner }

  /** A listed operation belongs to a thread that is still in execute_impl. */
  predicate Alive(s: State, a: Addr) {
    Known(s, a) && s.owner[a] in s.pc && !s.pc[s.owner[a]].Idle? && s.pc[s.owner[a]].op == a && !s.finished[a]
  }

  /** The mailbox list: pending operations, the last of which belongs to the one thread that
      waits to handle them; all others spin. */
  predicate QueueOk(s: State) {
    && Linked(s.next, s.mailbox, s.queue)
    && (forall i :: 0 <= i < |s.queue| ==> Alive(s, s.queue[i]) && s.applied[s.queue[i]] == 0)
    && (forall i :: 0 <= i < |s.queue| - 1 ==> s.pc[s.owner[s.queue[i]]].Spin?)
    && (s.queue != [] ==> Waiting(s.pc[s.owner[s.queue[|s.queue| - 1]]]))
    && (forall t :: t in s.pc && Waiting(s.pc[t]) ==> s.queue != [] && s.queue[|s.queue| - 1] == s.pc[t].op)
  }

  /** handler_busy, and the one thread that set it. */
  predicate BusyOk(s: State) {
    && (s.busy ==> s.handler in s.pc && Inside(s.pc[s.handler]))
    && (forall t :: t in s.pc && Inside(s.pc[t]) ==> s.busy && t == s.handler)
    && (forall t :: t in s.pc && s.pc[t].Seize? ==> !s.busy)
  }

  predicate WorkOk(s: State) {
    && (forall i :: 0 <= i < |s.work|
         ==> Alive(s, s.work[i]) && (s.pc[s.owner[s.work[i]]].Spin? || s.owner[s.work[i]] == s.handler))
    && (s.work != [] ==> s.busy && s.handler in s.pc && Handling(s.pc[s.handler]))
    && (forall t :: t in s.pc && Handling(s.pc[t]) ==> Progress(s, s.pc[t]))
  }

  /** How far the handler is. */
  predicate Progress(s: State, p: PC) {
    match p
    case Loop(_, cur) => Linked(s.next, cur, s.work) && Untouched(s, s.work)
    case Apply(_, req, rest) => s.work != [] && s.work[0] == req && Linked(s.next, rest, s.work[1..])
        && Untouched(s, s.work)
    case Finish(_, req, rest) =>
      s.work != [] && s.work[0] == req && Linked(s.next, rest, s.work[1..]) && Untouched(s, s.work[1..])
      && req in s.applied && s.applied[req] == 1
    case _ => true
  }

  predicate Untouched(s: State, l: seq<Addr>) { forall i :: 0 <= i < |l| ==> l[i] in s.applied && s.applied[l[i]] == 0 }

  predicate Apart(s: State) {
    && (forall i, j :: 0 <= i < j < |s.queue| ==> s.queue[i] != s.queue[j])
    && (forall i, j :: 0 <= i < j < |s.work| ==> s.work[i] != s.work[j])
    && (forall i, j :: 0 <= i < |s.queue| && 0 <= j < |s.work| ==> s.queue[i] != s.work[j])
  }

  predicate Complete(s: State, a: Addr) { a in s.finished && s.finished[a] && a in s.applied && s.applied[a] == 1 }

  /** What each thread may rely on about its own operation. */
  predicate Own(s: State, p: PC) {
    match p
    case Idle => true
    case Read(op) => Fresh(s, op)
    case Cas(op, res) => Fresh(s, op) && op in s.next && s.next[op] == res
    case Loop(op, _) => op in s.work || Complete(s, op)
    case Apply(op, _, _) => op in s.work || Complete(s, op)
    case Finish(op, _, _) => op in s.work || Complete(s, op)
    case Release(op) => Complete(s, op)
    case Leave(op) => Complete(s, op)
    case Spin(op) => op in s.queue || op in s.work || Complete(s, op)
    case _ => true
  }

  predicate Fresh(s: State, a: Addr) {
    a !in s.queue && a !in s.work && a in s.finished && !s.finished[a] && a in s.applied && s.applied[a] == 0
  }

  predicate Owns(s: State) { forall t :: t in s.pc ==> Own(s, s.pc[t]) }

  predicate Inv(s: State) { OwnersApart(s) && QueueOk(s) && BusyOk(s) && WorkOk(s) && Apart(s) && Owns(s) }

  lemma {:induction false} InitInv(s: State)
    requires Init(s)
    ensures Inv(s)
  {}
}
