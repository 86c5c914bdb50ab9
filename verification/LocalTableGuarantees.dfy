/** The table of thread-local elements: what holds in every run. */
module LocalTableGuarantees {
  import opened BucketTree
  import opened LocalTable
  import opened LocalTableFrames
  import opened LocalTableSteps

  // ----- guarantees over every run

  /** A step of thread `t`. */
  ghost predicate Step(s: State, t: Tid, s': State) {
    || Calls(s, t, s') || Enters(s, t, s') || Exhausts(s, t, s') || Probes(s, t, s') || Checks(s, t, s')
    || Creates(s, t, s') || Counts(s, t, s') || LooksRoomy(s, t, s') || (exists a :: LooksFull(s, t, a, s'))
    || SwapSucceeds(s, t, s') || SwapSuperfluous(s, t, s') || SwapRetries(s, t, s')
    || Inserts(s, t, s') || Seeks(s, t, s') || Claims(s, t, s') || Stores(s, t, s') || Returns(s, t, s')
  }

  lemma {:induction false} StepInv(s: State, t: Tid, s': State)
    requires Inv(s) && Step(s, t, s')
    ensures Inv(s')
  {
    if Calls(s, t, s') { CallsInv(s, t, s'); }
    else if Enters(s, t, s') { EntersInv(s, t, s'); }
    else if Exhausts(s, t, s') { ExhaustsInv(s, t, s'); }
    else if Probes(s, t, s') { ProbesInv(s, t, s'); }
    else if Checks(s, t, s') { ChecksInv(s, t, s'); }
    else if Creates(s, t, s') { CreatesInv(s, t, s'); }
    else if Counts(s, t, s') { CountsInv(s, t, s'); }
    else if LooksRoomy(s, t, s') { LooksRoomyInv(s, t, s'); }
    else if SwapSucceeds(s, t, s') { SwapSucceedsInv(s, t, s'); }
    else if SwapSuperfluous(s, t, s') { SwapSuperfluousInv(s, t, s'); }
    else if SwapRetries(s, t, s') { SwapRetriesInv(s, t, s'); }
    else if Inserts(s, t, s') { InsertsInv(s, t, s'); }
    else if Seeks(s, t, s') { SeeksInv(s, t, s'); }
    else if Claims(s, t, s') { ClaimsInv(s, t, s'); }
    else if Stores(s, t, s') { StoresInv(s, t, s'); }
    else if Returns(s, t, s') { ReturnsInv(s, t, s'); }
    else {
      var a :| LooksFull(s, t, a, s');
      LooksFullInv(s, t, a, s');
    }
  }

  ghost predicate Moved(s: State, s': State) { exists t :: Step(s, t, s') }

  ghost predicate IsRun(run: seq<State>) {
    run != [] && Init(run[0]) && forall i :: 0 <= i < |run| - 1 ==> Moved(run[i], run[i + 1])
  }

  lemma {:induction false} RunInv(run: seq<State>, i: nat)
    requires IsRun(run) && i < |run|
    ensures Inv(run[i])
  {
    if i == 0 {
      InitInv(run[0]);
    } else {
      RunInv(run, i - 1);
      assert Moved(run[i - 1], run[i - 1 + 1]);
      MovedInv(run[i - 1], run[i]);
    }
  }

  lemma {:induction false} MovedInv(s: State, s': State)
    requires Inv(s) && Moved(s, s')
    ensures Inv(s')
  {
    var t :| Step(s, t, s');
    StepInv(s, t, s');
  }

  function Taken(keys: seq<nat>): nat { if keys == [] then 0 else Taken(keys[1..]) + if keys[0] == 0 then 0 else 1 }

  function Keys(keys: seq<nat>): (r: seq<nat>)
    ensures |r| == Taken(keys)
  {
    if keys == [] then [] else (if keys[0] == 0 then [] else [keys[0]]) + Keys(keys[1..])
  }

  lemma {:induction false} KeysIn(keys: seq<nat>, j: nat)
    requires j < |Keys(keys)|
    ensures Keys(keys)[j] != 0 && Keys(keys)[j] in keys
  {
    if keys[0] == 0 { KeysIn(keys[1..], j); }
    else if j > 0 { KeysIn(keys[1..], j - 1); }
  }

  lemma {:induction false} KeysDistinct(keys: seq<nat>, i: nat, j: nat)
    requires i < j < |Keys(keys)|
    requires forall k, l :: 0 <= k < l < |keys| && keys[k] != 0 ==> keys[k] != keys[l]
    ensures Keys(keys)[i] != Keys(keys)[j]
  {
    var tail := keys[1..];
    assert forall k, l :: 0 <= k < l < |tail| && tail[k] != 0 ==> tail[k] == keys[k + 1] && tail[l] == keys[l + 1];
    if keys[0] == 0 {
      KeysDistinct(tail, i, j);
    } else if i > 0 {
      KeysDistinct(tail, i - 1, j - 1);
    } else {
      KeysIn(tail, j - 1);
      var l :| 0 <= l < |tail| && tail[l] == Keys(tail)[j - 1];
      assert keys[l + 1] == tail[l];
    }
  }

  /** No published array is ever more than half full, and no key is in it twice. */
  lemma {:induction false} HalfFull(run: seq<State>, i: nat, r: Aid)
    requires IsRun(run) && i < |run| && r in run[i].tab.chain
    ensures r in run[i].tab.arrays
    ensures var a := run[i].tab.arrays[r];
            |a.keys| == Pow2(a.lg) && 2 * Taken(a.keys) <= Pow2(a.lg)
            && forall k, l :: 0 <= k < l < |a.keys| && a.keys[k] != 0 ==> a.keys[k] != a.keys[l]
  {
    RunInv(run, i);
    var s := run[i].tab;
    ChainSlots(s, r);
    var a := s.arrays[r];
    var ks := Keys(a.keys);
    forall j | 0 <= j < |ks| ensures ks[j] != 0 && ks[j] in s.ticket && 1 <= s.ticket[ks[j]] <= Pow2(a.lg) / 2 {
      KeysIn(a.keys, j);
      var k :| 0 <= k < |a.keys| && a.keys[k] == ks[j];
      assert KeyOk(s, r, k);
    }
    forall j, k | 0 <= j < k < |ks| ensures ks[j] != ks[k] { KeysDistinct(a.keys, j, k); }
    var xs: seq<nat> := seq(|ks|, j requires 0 <= j < |ks| => s.ticket[ks[j]]);
    Pigeonhole(xs, Pow2(a.lg) / 2);
  }

  /** Every probe loop ends: a thread inspects each slot of an array at most once. */
  lemma {:induction false} ProbesEnd(run: seq<State>, i: nat, t: Tid)
    requires IsRun(run) && i < |run| && t in run[i].pc
    requires run[i].pc[t].Probe? || run[i].pc[t].Seek? || run[i].pc[t].Claim?
    ensures var r := run[i].pc[t].r;
            r in run[i].tab.arrays && run[i].pc[t].n < Pow2(run[i].tab.arrays[r].lg)
  {
    RunInv(run, i);
    assert Own(run[i].tab, t, run[i].pc[t]);
  }

  /** A thread that returns gets the element created for it. */
  lemma {:induction false} ReturnsOwnElement(run: seq<State>, i: nat, t: Tid, s': State)
    requires IsRun(run) && i < |run| && Returns(run[i], t, s')
    ensures t in run[i].tab.local && run[i].pc[t].found == run[i].tab.local[t]
  {
    RunInv(run, i);
    assert Own(run[i].tab, t, run[i].pc[t]);
  }

  /** The element of a thread is created once: it never changes. */
  lemma {:induction false} ElementStays(run: seq<State>, i: nat, j: nat, t: Tid)
    requires IsRun(run) && i <= j < |run| && t in run[i].tab.local
    ensures t in run[j].tab.local && run[j].tab.local[t] == run[i].tab.local[t]
    decreases j
  {
    if i < j {
      ElementStays(run, i, j - 1, t);
      ElementStep(run, j - 1, t);
    }
  }

  lemma {:induction false} ElementStep(run: seq<State>, i: nat, t: Tid)
    requires IsRun(run) && i + 1 < |run| && t in run[i].tab.local
    ensures t in run[i + 1].tab.local && run[i + 1].tab.local[t] == run[i].tab.local[t]
  {
    RunInv(run, i);
    assert Moved(run[i], run[i + 1]);
    var u :| Step(run[i], u, run[i + 1]);
    LocalsStay(run[i], u, run[i + 1], t);
  }

  lemma {:induction false} LocalsStay(s: State, u: Tid, s': State, t: Tid)
    requires Owns(s) && Step(s, u, s') && t in s.tab.local
    ensures t in s'.tab.local && s'.tab.local[t] == s.tab.local[t]
  {
    if Creates(s, u, s') {
      assert Own(s.tab, u, s.pc[u]);
    }
  }

  /** A thread gets the same pointer on every call, and no two threads get the same. */
  lemma {:induction false} SamePointer(run: seq<State>, i: nat, j: nat, t: Tid, u: Tid, s1: State, s2: State)
    requires IsRun(run) && i <= j < |run| && Returns(run[i], t, s1) && Returns(run[j], u, s2)
    ensures run[i].pc[t].found == run[j].pc[u].found <==> t == u
  {
    ReturnsOwnElement(run, i, t, s1);
    ReturnsOwnElement(run, j, u, s2);
    ElementStays(run, i, j, t);
    RunInv(run, j);
  }
}
