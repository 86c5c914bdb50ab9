/** The lock-free table behind enumerable_thread_specific (ets_base::table_lookup) as a step
    system: open-addressed arrays that are never emptied, linked from the newest to the
    oldest, each at least twice as large as the one before. */
module LocalTable {
  import opened BucketTree

  type Tid = t: nat | t >= 1 witness 1    // thread identifiers; 0 is the empty key
  type Aid = nat                          // addresses of arrays
  type Loc = nat                          // addresses of thread-local elements

  const WORD := 64

  datatype Ptr = Null | To(id: Aid)

  datatype Array = Array(lg: nat, next: Ptr, keys: seq<nat>, ptrs: seq<Loc>)

  /** Where a thread is in table_lookup. */
  datatype PC =
    | Idle
    | Visit(at: Ptr)                                           // head of the loop over the arrays
    | Probe(r: Aid, n: nat)                                    // n slots of the array were passed
    | Check(r: Aid, n: nat)                                    // the slot matches; is the array still the root?
    | Create                                                   // no array has the key
    | Count(found: Loc)                                        // about to increment my_count
    | Look(found: Loc, c: nat)                                 // has ticket c; about to read my_root
    | Swap(found: Loc, c: nat, a: Aid, seen: Ptr, lg: nat)         // about to compare-and-swap my_root
    | Insert(found: Loc)                                       // about to read my_root
    | Seek(r: Aid, n: nat, found: Loc)                         // looking for an empty slot
    | Claim(r: Aid, n: nat, found: Loc)                        // the slot was empty
    | Store(r: Aid, n: nat, found: Loc)                        // the slot is claimed
    | Done(found: Loc)                                         // about to return

  /** What the threads share. The last four fields are auxiliary: `chain` lists the published
      arrays, oldest first. */
  datatype Table = Table(
    root: Ptr,
    count: nat,
    arrays: map<Aid, Array>,
    hash: map<Tid, nat>,
    chain: seq<Aid>,
    ticket: map<Tid, nat>,
    local: map<Tid, Loc>,
    locals: nat                  // the number of elements created
  )

  datatype State = State(tab: Table, pc: map<Tid, PC>)

  // ----- slots

  /** `h` shifted right by `n` bits. */
  function Shift(h: nat, n: nat): nat { if n == 0 then h else Shift(h / 2, n - 1) }

  lemma {:induction false} ShiftBound(h: nat, n: nat, m: nat)
    requires h < Pow2(m + n)
    ensures Shift(h, n) < Pow2(m)
  {
    if n > 0 { ShiftBound(h / 2, n - 1, m); }
  }

  /** array::start: the top `lg` bits of the hash. */
  function Start(h: nat, lg: nat): (r: nat)
    requires h < Pow2(WORD)
    ensures r < Pow2(lg)
  {
    if lg <= WORD then ShiftBound(h, WORD - lg, lg); Shift(h, WORD - lg) else Pow2Mono(WORD, lg); h
  }

  /** The slot reached from `start` after `n` steps with wrap-around. */
  function Slot(start: nat, n: nat, size: nat): (r: nat)
    requires start < size && n < size
    ensures r < size
  {
    if start + n < size then start + n else start + n - size
  }

  /** How many steps lead from `start` to slot `i`. */
  function Dist(start: nat, i: nat, size: nat): (r: nat)
    requires start < size && i < size
    ensures r < size && Slot(start, r, size) == i
  {
    if i >= start then i - start else i + size - start
  }

  predicate Sound(a: Array) { a.lg >= 1 && |a.keys| == Pow2(a.lg) && |a.ptrs| == Pow2(a.lg) }

  function SlotOf(s: Table, t: Tid, r: Aid, n: nat): (i: nat)
    requires Reads(s, t, r) && n < Pow2(s.arrays[r].lg)
    ensures i < Pow2(s.arrays[r].lg)
  {
    Slot(Start(s.hash[t], s.arrays[r].lg), n, Pow2(s.arrays[r].lg))
  }

  predicate Reads(s: Table, t: Tid, r: Aid) {
    t in s.hash && s.hash[t] < Pow2(WORD) && r in s.arrays && Sound(s.arrays[r])
  }

  /** The least lg, from `s` on, whose array takes `c` keys half full. */
  function Grow(c: nat, s: nat): (r: nat)
    requires s >= 1
    ensures r >= s && c <= Pow2(r - 1) && (r > s ==> Pow2(r - 2) < c)
    decreases c - Pow2(s - 1)
  {
    if c > Pow2(s - 1) then Grow(c, s + 1) else s
  }

  function Fresh(lg: nat, next: Ptr): Array {
    Array(lg, next, seq(Pow2(lg), _ => 0), seq(Pow2(lg), _ => 0))
  }

  // ----- steps

  function Goto(s: State, t: Tid, pc: PC): State { s.(pc := s.pc[t := pc]) }

  predicate Init(s: State) {
    && s.tab.root == Null && s.tab.count == 0 && s.tab.chain == [] && s.tab.ticket == map[] && s.tab.local == map[]
        && s.tab.arrays == map[]
    && s.pc.Keys == s.tab.hash.Keys
    && forall t :: t in s.pc ==> s.pc[t] == Idle && s.tab.hash[t] < Pow2(WORD)
  }

  predicate Calls(s: State, t: Tid, s': State) {
    t in s.pc && s.pc[t].Idle? && s' == Goto(s, t, Visit(s.tab.root))
  }

  predicate Enters(s: State, t: Tid, s': State) {
    t in s.pc && s.pc[t].Visit? && s.pc[t].at.To? && s' == Goto(s, t, Probe(s.pc[t].at.id, 0))
  }

  predicate Exhausts(s: State, t: Tid, s': State) {
    t in s.pc && s.pc[t].Visit? && s.pc[t].at == Null && s' == Goto(s, t, Create)
  }

  predicate Probes(s: State, t: Tid, s': State) {
    && t in s.pc && s.pc[t].Probe?
    && var r, n := s.pc[t].r, s.pc[t].n;
       Reads(s.tab, t, r) && n < Pow2(s.tab.arrays[r].lg)
       && var key := s.tab.arrays[r].keys[SlotOf(s.tab, t, r, n)];
          s' == Goto(s, t, if key == 0 then Visit(s.tab.arrays[r].next)
                           else if key == t then Check(r, n) else Probe(r, n + 1))
  }

  predicate Checks(s: State, t: Tid, s': State) {
    && t in s.pc && s.pc[t].Check?
    && var r, n := s.pc[t].r, s.pc[t].n;
       Reads(s.tab, t, r) && n < Pow2(s.tab.arrays[r].lg)
       && var found := s.tab.arrays[r].ptrs[SlotOf(s.tab, t, r, n)];
          s' == Goto(s, t, if s.tab.root == To(r) then Done(found) else Insert(found))
  }

  predicate Creates(s: State, t: Tid, s': State) {
    && t in s.pc && s.pc[t].Create?
    && s' == Goto(s, t, Count(s.tab.locals))
        .(tab := s.tab.(locals := s.tab.locals + 1, local := s.tab.local[t := s.tab.locals]))
  }

  predicate Counts(s: State, t: Tid, s': State) {
    && t in s.pc && s.pc[t].Count?
    && s' == Goto(s, t, Look(s.pc[t].found, s.tab.count + 1))
        .(tab := s.tab.(count := s.tab.count + 1, ticket := s.tab.ticket[t := s.tab.count + 1]))
  }

  /** The ticket fits into the root array. */
  predicate LooksRoomy(s: State, t: Tid, s': State) {
    && t in s.pc && s.pc[t].Look? && s.tab.root.To? && s.tab.root.id in s.tab.arrays
    && s.pc[t].c <= Pow2(s.tab.arrays[s.tab.root.id].lg) / 2
    && s' == Goto(s, t, Insert(s.pc[t].found))
  }

  /** It does not: a larger array is allocated at a free address. */
  predicate LooksFull(s: State, t: Tid, a: Aid, s': State) {
    && t in s.pc && s.pc[t].Look? && a !in s.tab.arrays
    && (s.tab.root.To? ==>
          s.tab.root.id in s.tab.arrays && s.tab.arrays[s.tab.root.id].lg >= 1
          && s.pc[t].c > Pow2(s.tab.arrays[s.tab.root.id].lg) / 2)
    && var lg := Grow(s.pc[t].c, if s.tab.root.To? then s.tab.arrays[s.tab.root.id].lg else 2);
       s' == Goto(s, t, Swap(s.pc[t].found, s.pc[t].c, a, s.tab.root, lg))
           .(tab := s.tab.(arrays := s.tab.arrays[a := Fresh(lg, s.tab.root)]))
  }

  predicate SwapSucceeds(s: State, t: Tid, s': State) {
    && t in s.pc && s.pc[t].Swap? && s.tab.root == s.pc[t].seen
    && s' == Goto(s, t, Insert(s.pc[t].found))
        .(tab := s.tab.(root := To(s.pc[t].a), chain := s.tab.chain + [s.pc[t].a]))
  }

  /** Another thread published an array at least as large: ours is freed. */
  predicate SwapSuperfluous(s: State, t: Tid, s': State) {
    && t in s.pc && s.pc[t].Swap? && s.tab.root != s.pc[t].seen
    && s.tab.root.To? && s.tab.root.id in s.tab.arrays && s.tab.arrays[s.tab.root.id].lg >= s.pc[t].lg
    && s' == Goto(s, t, Insert(s.pc[t].found)).(tab := s.tab.(arrays := s.tab.arrays - {s.pc[t].a}))
  }

  /** Another thread published a smaller array: try again in front of it. */
  predicate SwapRetries(s: State, t: Tid, s': State) {
    && t in s.pc && s.pc[t].Swap? && s.tab.root != s.pc[t].seen
    && s.tab.root.To? && s.tab.root.id in s.tab.arrays && s.tab.arrays[s.tab.root.id].lg < s.pc[t].lg
    && s.pc[t].a in s.tab.arrays
    && s' == Goto(s, t, s.pc[t].(seen := s.tab.root))
        .(tab := s.tab.(arrays := s.tab.arrays[s.pc[t].a := s.tab.arrays[s.pc[t].a].(next := s.tab.root)]))
  }

  predicate Inserts(s: State, t: Tid, s': State) {
    && t in s.pc && s.pc[t].Insert? && s.tab.root.To?
    && s' == Goto(s, t, Seek(s.tab.root.id, 0, s.pc[t].found))
  }

  predicate Seeks(s: State, t: Tid, s': State) {
    && t in s.pc && s.pc[t].Seek?
    && var r, n, found := s.pc[t].r, s.pc[t].n, s.pc[t].found;
       Reads(s.tab, t, r) && n < Pow2(s.tab.arrays[r].lg)
       && s' == Goto(s, t, if s.tab.arrays[r].keys[SlotOf(s.tab, t, r, n)] == 0 then Claim(r, n, found)
                           else Seek(r, n + 1, found))
  }

  /** slot::claim: the slot is still empty, or was taken in between. */
  predicate Claims(s: State, t: Tid, s': State) {
    && t in s.pc && s.pc[t].Claim?
    && var r, n, found := s.pc[t].r, s.pc[t].n, s.pc[t].found;
       Reads(s.tab, t, r) && n < Pow2(s.tab.arrays[r].lg)
       && var i := SlotOf(s.tab, t, r, n);
          s' == if s.tab.arrays[r].keys[i] == 0
                then Goto(s, t, Store(r, n, found))
                .(tab := s.tab.(arrays := s.tab.arrays[r := s.tab.arrays[r].(keys := s.tab.arrays[r].keys[i := t])]))
                else Goto(s, t, Seek(r, n + 1, found))
  }

  predicate Stores(s: State, t: Tid, s': State) {
    && t in s.pc && s.pc[t].Store?
    && var r, n, found := s.pc[t].r, s.pc[t].n, s.pc[t].found;
       Reads(s.tab, t, r) && n < Pow2(s.tab.arrays[r].lg)
       && s' == Goto(s, t, Done(found))
           .(tab := s.tab.(arrays := s.tab.arrays[
               r := s.tab.arrays[r].(ptrs := s.tab.arrays[r].ptrs[SlotOf(s.tab, t, r, n) := found])]))
  }

  predicate Returns(s: State, t: Tid, s': State) {
    t in s.pc && s.pc[t].Done? && s' == Goto(s, t, Idle)
  }

  // ----- invariant

  /** The published arrays, each larger than the one before. */
  predicate ChainOk(s: Table) {
    && s.root == (if s.chain == [] then Null else To(s.chain[|s.chain| - 1]))
    && (forall j :: 0 <= j < |s.chain| ==> s.chain[j] in s.arrays && Sound(s.arrays[s.chain[j]]))
    && (forall j :: 0 <= j < |s.chain| ==> s.arrays[s.chain[j]].next == if j == 0 then Null else To(s.chain[j - 1]))
    && (forall i, j :: 0 <= i < j < |s.chain| ==> s.arrays[s.chain[i]].lg < s.arrays[s.chain[j]].lg)
    && (forall i, j :: 0 <= i < j < |s.chain| ==> s.chain[i] != s.chain[j])
  }

  /** Every counted thread holds its own ticket and has its own element. */
  predicate TicketsOk(s: Table) {
    && (forall t :: t in s.ticket ==> 1 <= s.ticket[t] <= s.count && t in s.local)
    && (forall t, u :: t in s.ticket && u in s.ticket && s.ticket[t] == s.ticket[u] ==> t == u)
    && (forall t :: t in s.local ==> s.local[t] < s.locals && t in s.hash)
    && (forall t, u :: t in s.local && u in s.local && s.local[t] == s.local[u] ==> t == u)
    && (forall t :: t in s.hash ==> s.hash[t] < Pow2(WORD))
  }

  /** The keys of an array: distinct, with tickets at most half its size, and reached from
      their start over taken slots only. */
  predicate SlotsOk(s: Table, r: Aid) {
    && r in s.arrays && Sound(s.arrays[r])
    && (forall i :: 0 <= i < |s.arrays[r].keys| && s.arrays[r].keys[i] != 0 ==> KeyOk(s, r, i))
    && (forall i, j :: 0 <= i < j < |s.arrays[r].keys| && s.arrays[r].keys[i] != 0
         ==> s.arrays[r].keys[i] != s.arrays[r].keys[j])
  }

  predicate KeyOk(s: Table, r: Aid, i: nat)
    requires r in s.arrays && Sound(s.arrays[r]) && i < Pow2(s.arrays[r].lg) && s.arrays[r].keys[i] != 0
  {
    var k: Tid := s.arrays[r].keys[i];
    && k in s.ticket && s.ticket[k] <= Pow2(s.arrays[r].lg) / 2 && k in s.local
    && Reads(s, k, r) && Passed(s, k, r, DistOf(s, k, r, i))
  }

  function DistOf(s: Table, t: Tid, r: Aid, i: nat): (n: nat)
    requires Reads(s, t, r) && i < Pow2(s.arrays[r].lg)
    ensures n < Pow2(s.arrays[r].lg) && SlotOf(s, t, r, n) == i
  {
    Dist(Start(s.hash[t], s.arrays[r].lg), i, Pow2(s.arrays[r].lg))
  }

  /** The first `n` slots thread `t` meets in the array are taken. */
  predicate Passed(s: Table, t: Tid, r: Aid, n: nat)
    requires Reads(s, t, r) && n <= Pow2(s.arrays[r].lg)
  {
    forall m :: 0 <= m < n ==> s.arrays[r].keys[SlotOf(s, t, r, m)] != 0
  }

  predicate ArraysOk(s: Table) { forall j :: 0 <= j < |s.chain| ==> SlotsOk(s, s.chain[j]) }

  /** A slot holds the element of its key, unless its thread is just about to store it. */
  predicate PtrOk(s: State, r: Aid, i: nat) {
    && r in s.tab.arrays && i < |s.tab.arrays[r].keys| && i < |s.tab.arrays[r].ptrs|
    && (s.tab.arrays[r].keys[i] != 0 ==>
          var k: Tid := s.tab.arrays[r].keys[i];
          (k in s.tab.local && s.tab.arrays[r].ptrs[i] == s.tab.local[k])
              || (k in s.pc && s.pc[k].Store? && s.pc[k].r == r))
  }

  predicate PtrsOk(s: State) {
    forall j, i ::
      0 <= j < |s.tab.chain| && s.tab.chain[j] in s.tab.arrays && 0 <= i < |s.tab.arrays[s.tab.chain[j]].keys| ==>
        PtrOk(s, s.tab.chain[j], i)
  }

  predicate Holds(s: Table, t: Tid, r: Aid) { r in s.arrays && t in s.arrays[r].keys }

  predicate Absent(s: Table, t: Tid) { forall i :: 0 <= i < |s.chain| ==> !Holds(s, t, s.chain[i]) }

  /** The key of `t` is in no array published after `r`. */
  predicate AbsentAfter(s: Table, t: Tid, r: Aid) {
    forall i, j :: 0 <= j < i < |s.chain| && s.chain[j] == r ==> !Holds(s, t, s.chain[i])
  }

  ghost predicate Present(s: Table, t: Tid) { exists r :: r in s.chain && Holds(s, t, r) }

  predicate Counted(s: Table, t: Tid, found: Loc) { t in s.ticket && t in s.local && s.local[t] == found }

  /** `t` was counted and is in the table, or it is new. */
  ghost predicate Settled(s: Table, t: Tid) {
    if t in s.ticket then t in s.local && Present(s, t) else t !in s.local && Absent(s, t)
  }

  /** Room for the ticket of `t`. */
  predicate Roomy(s: Table, t: Tid, r: Aid) {
    r in s.chain && r in s.arrays && t in s.ticket && s.ticket[t] <= Pow2(s.arrays[r].lg) / 2
  }

  /** `t` has passed `n` taken slots of a published array, none of them its own. */
  predicate Passing(s: Table, t: Tid, r: Aid, n: nat) {
    && r in s.chain && Reads(s, t, r) && n < Pow2(s.arrays[r].lg) && Passed(s, t, r, n)
    && (forall m :: 0 <= m < n ==> s.arrays[r].keys[SlotOf(s, t, r, m)] != t)
    && AbsentAfter(s, t, r)
  }

  /** The slot `n` steps on is the one of `t`. */
  predicate AtOwn(s: Table, t: Tid, r: Aid, n: nat) {
    r in s.chain && Reads(s, t, r) && n < Pow2(s.arrays[r].lg) && s.arrays[r].keys[SlotOf(s, t, r, n)] == t
  }

  /** What a thread may rely on where it is. */
  ghost predicate Own(s: Table, t: Tid, p: PC) {
    match p
    case Idle => Settled(s, t)
    case Visit(at) => Settled(s, t) && if at == Null then Absent(s, t) else at.id in s.chain && AbsentAfter(s, t, at.id)
    case Probe(r, n) => Settled(s, t) && Passing(s, t, r, n)
    case Check(r, n) => Settled(s, t) && AtOwn(s, t, r, n) && AbsentAfter(s, t, r)
    case Create => t !in s.ticket && t !in s.local && Absent(s, t)
    case Count(found) => t !in s.ticket && t in s.local && s.local[t] == found && Absent(s, t)
    case Look(found, c) => Counted(s, t, found) && s.ticket[t] == c && Absent(s, t)
    case Swap(found, c, a, seen, lg) => Counted(s, t, found) && s.ticket[t] == c && Absent(s, t)
        && Private(s, c, a, seen, lg)
    case Insert(found) => Counted(s, t, found) && s.root.To? && Roomy(s, t, s.root.id) && !Holds(s, t, s.root.id)
    case Seek(r, n, found) => Seeking(s, t, r, n, found)
    case Claim(r, n, found) => Seeking(s, t, r, n, found)
    case Store(r, n, found) => Counted(s, t, found) && AtOwn(s, t, r, n)
    case Done(found) => Counted(s, t, found) && Present(s, t)
  }

  predicate Seeking(s: Table, t: Tid, r: Aid, n: nat, found: Loc) {
    Counted(s, t, found) && Roomy(s, t, r) && Passing(s, t, r, n) && !Holds(s, t, r)
  }

  /** An array not published yet, to be put in front of `seen`. */
  predicate Private(s: Table, c: nat, a: Aid, seen: Ptr, lg: nat) {
    && a in s.arrays && a !in s.chain && lg >= 1 && s.arrays[a] == Fresh(lg, seen) && c <= Pow2(lg - 1)
    && (seen.To? ==> seen.id in s.chain && seen.id in s.arrays && s.arrays[seen.id].lg < lg)
  }

  predicate PrivateApart(s: State) {
    forall t, u :: t in s.pc && u in s.pc && t != u && s.pc[t].Swap? && s.pc[u].Swap? ==> s.pc[t].a != s.pc[u].a
  }

  ghost predicate Owns(s: State) { forall t :: t in s.pc ==> t in s.tab.hash && Own(s.tab, t, s.pc[t]) }

  ghost predicate Inv(s: State) {
    && ChainOk(s.tab) && TicketsOk(s.tab) && ArraysOk(s.tab) && PtrsOk(s) && PrivateApart(s) && Owns(s)
    && s.pc.Keys == s.tab.hash.Keys
  }

  lemma {:induction false} InitInv(s: State)
    requires Init(s)
    ensures Inv(s)
  {}
}
