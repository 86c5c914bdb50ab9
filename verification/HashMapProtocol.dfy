/** concurrent_hash_map as a step system: any number of clients run find, insert,
    erase and exclude over one table, interleaved at shared reads, lock operations,
    compare-and-swaps and stores.  Two pieces of code that run under a bucket's write
    lock are single steps: InsertNode (the size counter, the new head of the chain, the
    test of the next segment and the compare-and-swap that claims it) and ScanMove
    (unlinking a node and linking it into the bucket being rehashed).

    A bucket or item mutex is an atomic reader/writer lock whose upgrade may release
    the lock first.  Who holds a lock is read off the clients' own states, so there
    is no separate lock table.  A client stands for one accessor and the operation
    running on it; a thread with several accessors is several clients. */
module HashMapProtocol {
  import opened BucketTree

  type NodeId = nat
  type Key = int

  /** A bucket: `req` is the rehash_req flag, `list` the chain from its head. */
  datatype Slot = Slot(req: bool, list: seq<NodeId>)

  datatype Mode = Free | Read | Write

  /** What the caller wants to hold on the item: nothing, const_accessor, accessor. */
  datatype Access = NoAccess | ReadAccess | WriteAccess

  datatype Op = Find(key: Key, want: Access)
              | Insert(key: Key, want: Access)
              | Erase(key: Key)
              | Exclude(key: Key)

  /** The item lock held through the client's accessor. */
  datatype Accessor = NoAcc | Acc(node: NodeId, write: bool)

  datatype PC =
    | Idle | Load
    // bucket_accessor::acquire and rehash_bucket
    | Peek | Try | Recheck | Wait | Scan | ScanUpg
    // lookup, erase, exclude with the bucket lock held (or awaited for an upgrade)
    | Search | Upg | UpgWait | Research | Check | Check2 | Absent | Ready | ItemTry
    | UpgErase | UpgEraseWait | CheckErase | CheckErase2 | Unlink
    // an unlinked node on its way to deletion
    | ItemUpg | ItemWait | ItemRelease | Delete
    // enable_segment
    | Alloc | Publish

  /** One client.  `lock` is its lock on bucket `tgt`; `chain` lists the buckets it has
      marked as rehashed and is filling, outermost call first, all write-locked. */
  datatype Client = Client(
    op: Op, pc: PC, m: nat, tgt: nat, lock: Mode, chain: seq<nat>,
    pos: nat, child: nat, node: NodeId, isNew: bool, grow: nat, acc: Accessor)

  /** The table.  `level` is the published mask, `alloc` the level already allocated,
      `segs` the segment pointers that are no longer null, `key` the key of every node
      ever created and `alive` the nodes not yet deleted. */
  datatype State = State(
    hash: Key -> nat, level: nat, alloc: nat, segs: set<nat>, slots: seq<Slot>, size: int,
    key: map<NodeId, Key>, alive: set<NodeId>, clients: seq<Client>)

  function KeyOf(s: State, n: NodeId): Key { if n in s.key then s.key[n] else 0 }
  function HashOf(s: State, n: NodeId): nat { s.hash(KeyOf(s, n)) }
  function ListOf(s: State, b: nat): seq<NodeId> { if b < |s.slots| then s.slots[b].list else [] }
  predicate IsReq(s: State, b: nat) { b < |s.slots| && s.slots[b].req }
  function H(s: State, c: Client): nat { s.hash(c.op.key) }

  predicate Linked(s: State, n: NodeId, b: nat) { n in ListOf(s, b) }
  predicate HasKey(s: State, b: nat, k: Key) { exists n :: n in ListOf(s, b) && KeyOf(s, n) == k }

  predicate Holds(c: Client, b: nat) { b in c.chain || (!c.lock.Free? && c.tgt == b) }
  predicate HoldsW(c: Client, b: nat) { b in c.chain || (c.lock.Write? && c.tgt == b) }

  /** The bucket lock `b` can be given to client `t` for reading, for writing. */
  ghost predicate NoWriter(s: State, t: nat, b: nat) {
    forall u :: 0 <= u < |s.clients| && u != t ==> !HoldsW(s.clients[u], b)
  }
  ghost predicate NoHolder(s: State, t: nat, b: nat) {
    forall u :: 0 <= u < |s.clients| && u != t ==> !Holds(s.clients[u], b)
  }

  predicate HasAcc(c: Client, n: NodeId) { c.acc.Acc? && c.acc.node == n }

  /** The item lock of `n` can be given to client `t`. */
  ghost predicate ItemFree(s: State, t: nat, n: NodeId, write: bool) {
    forall u :: 0 <= u < |s.clients| && u != t && HasAcc(s.clients[u], n) ==> !write && !s.clients[u].acc.write
  }

  function With(s: State, t: nat, c: Client): State
    requires t < |s.clients|
  {
    s.(clients := s.clients[t := c])
  }

  function WithSlot(s: State, b: nat, x: Slot): State {
    if b < |s.slots| then s.(slots := s.slots[b := x]) else s
  }

  function Drop(l: seq<NodeId>, p: nat): seq<NodeId> {
    if p < |l| then l[..p] + l[p + 1..] else l
  }

  /** The level reached by enabling segment `k`: the first block holds segments 1 to 7. */
  function NewLevel(k: nat): nat { if k < 8 then 8 else k + 1 }

  /** The segment indices 1 to `n - 1`. */
  function Segments(n: nat): (r: set<nat>)
    ensures forall j :: j in r <==> 1 <= j < n
  {
    if n <= 1 then {} else Segments(n - 1) + {n - 1}
  }

  /** Continue with the bucket lock: fill the innermost marked bucket, or do the operation. */
  function Enter(c: Client): Client {
    if c.chain == [] then c.(pc := Search) else c.(pc := Scan, pos := 0)
  }

  /** check_mask_race returned false. */
  function Pass(c: Client): Client {
    if c.pc.CheckErase? || c.pc.CheckErase2? then c.(pc := Search)
    else if c.op.Insert? then c.(pc := Ready)
    else c.(pc := Absent)
  }

  function AfterOp(c: Client): Client {
    c.(lock := Free, isNew := false, pc := if c.grow != 0 then Alloc else Idle)
  }

  datatype Step = Acquire(x: AcquireAction) | Work(w: WorkAction) | Item(i: ItemAction) | Share(h: ShareAction)

  ghost predicate Next(s: State, s': State) {
    exists t: nat, a: Step :: t < |s.clients| && Does(s, s', t, a)
  }

  /** Client `t` takes step `a`. */
  ghost predicate Does(s: State, s': State, t: nat, a: Step)
    requires t < |s.clients|
  {
    var c := s.clients[t];
    match a
    case Acquire(x) => CanAcquire(s, t, c, x) && s' == With(s, t, AcquireTo(s, c, x))
    case Work(w) => CanWork(s, t, c, w) && s' == With(s, t, WorkTo(s, c, w))
    case Item(i) => CanItem(s, t, c, i) && s' == With(s, t, ItemTo(c, i))
    case Share(h) => Shares(s, s', t, c, h)
  }

  // ----- starting an operation; bucket_accessor::acquire and the scan of rehash_bucket

  datatype AcquireAction =
    | Begin(op: Op) | DropAcc | LoadMask | PeekReq | PeekOk | TryLock | TryFail | RecheckDone | WaitLock
    | ScanSkip | ScanUpgrade | ScanLose | ScanRelock

  function WaitMode(c: Client): Mode {
    if c.chain == [] && c.op.Exclude? then Write else Read
  }

  ghost predicate CanAcquire(s: State, t: nat, c: Client, x: AcquireAction) {
    match x
    case Begin(op) =>
      && c.pc.Idle?
      && (op.Exclude? ==> c.acc.Acc? && op.key == KeyOf(s, c.acc.node))
      && (op.Erase? ==> c.acc.NoAcc?)
    case DropAcc => c.pc.Idle?
    case LoadMask => c.pc.Load?
    case PeekReq => c.pc.Peek? && IsReq(s, c.tgt)
    case PeekOk => c.pc.Peek? && !IsReq(s, c.tgt)
    case TryLock => c.pc.Try? && NoHolder(s, t, c.tgt)
    case TryFail => c.pc.Try? && !NoHolder(s, t, c.tgt)
    case RecheckDone => c.pc.Recheck? && !IsReq(s, c.tgt)
    case WaitLock => c.pc.Wait? && NoWriter(s, t, c.tgt) && (WaitMode(c).Write? ==> NoHolder(s, t, c.tgt))
    case ScanSkip =>
      && c.pc.Scan? && c.chain != [] && c.pos < |ListOf(s, c.tgt)|
      && !OnPath(c.chain[|c.chain| - 1], HashOf(s, ListOf(s, c.tgt)[c.pos]))
    case ScanUpgrade => c.pc.Scan? && c.lock.Read? && NoHolder(s, t, c.tgt)
    case ScanLose => c.pc.Scan? && c.lock.Read?
    case ScanRelock => c.pc.ScanUpg? && NoHolder(s, t, c.tgt)
  }

  function AcquireTo(s: State, c: Client, x: AcquireAction): Client {
    match x
    case Begin(op) => c.(op := op, pc := Load, acc := if op.Exclude? then c.acc else NoAcc)
    case DropAcc => c.(acc := NoAcc)
    case LoadMask => c.(m := s.level, tgt := Low(H(s, c), s.level), pc := Peek)
    case PeekReq => c.(pc := Try)
    case PeekOk => c.(pc := Wait)
    case TryLock => c.(lock := Write, pc := Recheck)
    case TryFail => c.(pc := Wait)
    case RecheckDone => Enter(c)
    case WaitLock => Enter(c.(lock := WaitMode(c)))
    case ScanSkip => c.(pos := c.pos + 1)
    case ScanUpgrade => c.(lock := Write)
    case ScanLose => c.(lock := Free, pc := ScanUpg)
    case ScanRelock => c.(lock := Write, pc := Scan, pos := 0)
  }

  // ----- lookup, erase and exclude on the locked bucket

  datatype WorkAction =
    | Found(n: NodeId) | Missing | UpgradeInsert | LoseInsert | RelockInsert
    | UpgradeErase | LoseErase | RelockErase
    | MaskSame | MaskMoved | ChildReq | ChildRehashed | ReturnAbsent

  /** The mask read by check_mask_race selects another bucket than the old one. */
  predicate Moved(s: State, c: Client) {
    c.m < s.level && Low(H(s, c), c.m) != Low(H(s, c), s.level)
  }

  ghost predicate CanWork(s: State, t: nat, c: Client, w: WorkAction) {
    match w
    case Found(n) =>
      && (c.pc.Search? || c.pc.Research?) && n in ListOf(s, c.tgt)
      && (if c.op.Exclude? then HasAcc(c, n) else KeyOf(s, n) == c.op.key)
    case Missing =>
      && (c.pc.Search? || c.pc.Research?)
      && (if c.op.Exclude? then c.acc.Acc? && c.acc.node !in ListOf(s, c.tgt) else !HasKey(s, c.tgt, c.op.key))
    case UpgradeInsert => c.pc.Upg? && NoHolder(s, t, c.tgt)
    case LoseInsert => c.pc.Upg?
    case RelockInsert => c.pc.UpgWait? && NoHolder(s, t, c.tgt)
    case UpgradeErase => c.pc.UpgErase? && NoHolder(s, t, c.tgt)
    case LoseErase => c.pc.UpgErase?
    case RelockErase => c.pc.UpgEraseWait? && NoHolder(s, t, c.tgt)
    case MaskSame => (c.pc.Check? || c.pc.CheckErase?) && !Moved(s, c)
    case MaskMoved => (c.pc.Check? || c.pc.CheckErase?) && Moved(s, c)
    case ChildReq => (c.pc.Check2? || c.pc.CheckErase2?) && IsReq(s, c.child)
    case ChildRehashed => (c.pc.Check2? || c.pc.CheckErase2?) && !IsReq(s, c.child)
    case ReturnAbsent => c.pc.Absent?
  }

  function WorkTo(s: State, c: Client, w: WorkAction): Client {
    match w
    case Found(n) =>
      c.(node := n,
         lock := if c.pc.Research? then Read else c.lock,
         pc := if c.op.Find? || c.op.Insert? then ItemTry else if c.lock.Write? then Unlink else UpgErase)
    case Missing => c.(pc := if c.op.Insert? && !c.lock.Write? then Upg else Check)
    case UpgradeInsert => c.(lock := Write, pc := Check)
    case LoseInsert => c.(lock := Free, pc := UpgWait)
    case RelockInsert => c.(lock := Write, pc := Research)
    case UpgradeErase => c.(lock := Write, pc := Unlink)
    case LoseErase => c.(lock := Free, pc := UpgEraseWait)
    case RelockErase => c.(lock := Write, pc := CheckErase)
    case MaskSame => Pass(c.(m := s.level))
    case MaskMoved =>
      c.(m := s.level,
         child := if Moved(s, c) then Low(H(s, c), NextMask(H(s, c), c.m, s.level)) else c.child,
         pc := if c.pc.Check? then Check2 else CheckErase2)
    case ChildReq => Pass(c)
    case ChildRehashed => c.(lock := Free, tgt := Low(H(s, c), c.m), pc := Peek)
    case ReturnAbsent => c.(lock := Free, acc := NoAcc, pc := Idle)
  }

  // ----- item locks

  datatype ItemAction =
    | SkipItem | TakeItem | GiveUp | KeepItem | UpgradeItem | LoseItem | LockItem | ReleaseItem

  function Wanted(c: Client): Access {
    if c.op.Find? || c.op.Insert? then c.op.want else NoAccess
  }

  ghost predicate CanItem(s: State, t: nat, c: Client, i: ItemAction) {
    match i
    case SkipItem => c.pc.ItemTry? && Wanted(c).NoAccess?
    case TakeItem => c.pc.ItemTry? && !Wanted(c).NoAccess? && ItemFree(s, t, c.node, Wanted(c).WriteAccess?)
    case GiveUp => c.pc.ItemTry? && !Wanted(c).NoAccess? && !ItemFree(s, t, c.node, Wanted(c).WriteAccess?)
    case KeepItem => c.pc.ItemUpg? && c.acc.Acc? && c.acc.write
    case UpgradeItem => c.pc.ItemUpg? && c.acc.Acc? && !c.acc.write && ItemFree(s, t, c.node, true)
    case LoseItem => c.pc.ItemUpg? && c.acc.Acc? && !c.acc.write
    case LockItem => c.pc.ItemWait? && ItemFree(s, t, c.node, true)
    case ReleaseItem => c.pc.ItemRelease?
  }

  function ItemTo(c: Client, i: ItemAction): Client {
    match i
    case SkipItem => AfterOp(c)
    case TakeItem => AfterOp(c).(acc := Acc(c.node, Wanted(c).WriteAccess?))
    case GiveUp => c.(lock := Free, pc := Load)
    case KeepItem => c.(pc := ItemRelease)
    case UpgradeItem => c.(acc := Acc(c.node, true), pc := ItemRelease)
    case LoseItem => c.(acc := NoAcc, pc := ItemWait)
    case LockItem => c.(acc := Acc(c.node, true), pc := ItemRelease)
    case ReleaseItem => c.(acc := NoAcc, pc := Delete)
  }

  // ----- steps that change the table

  datatype ShareAction =
    | Mark | ScanDone | ScanMove | InsertNode(n: NodeId) | UnlinkNode(p: nat) | DeleteNode | AllocSegment | PublishMask

  ghost predicate Shares(s: State, s': State, t: nat, c: Client, h: ShareAction)
    requires t < |s.clients|
  {
    match h
    case Mark => Marks(s, s', t, c)
    case ScanDone => Finishes(s, s', t, c)
    case ScanMove => Moves(s, s', t, c)
    case InsertNode(n) => Inserts(s, s', t, c, n)
    case UnlinkNode(p) => Unlinks(s, s', t, c, p)
    case DeleteNode => Deletes(s, s', t, c)
    case AllocSegment => Allocates(s, s', t, c)
    case PublishMask => Publishes(s, s', t, c)
  }

  /** Claim an unrehashed bucket: mark it rehashed before filling it from its parent. */
  ghost predicate Marks(s: State, s': State, t: nat, c: Client)
    requires t < |s.clients|
  {
    && c.pc.Recheck? && IsReq(s, c.tgt) && c.tgt >= 2
    && s' == With(WithSlot(s, c.tgt, Slot(false, [])), t,
                  c.(chain := c.chain + [c.tgt], tgt := Parent(c.tgt), lock := Free, pc := Peek))
  }

  /** The scan reached the end: release the parent and return to the caller with the
      filled bucket locked for writing. */
  ghost predicate Finishes(s: State, s': State, t: nat, c: Client)
    requires t < |s.clients|
  {
    && c.pc.Scan? && c.chain != [] && c.pos == |ListOf(s, c.tgt)|
    && s' == With(s, t, Enter(c.(chain := c.chain[..|c.chain| - 1], tgt := c.chain[|c.chain| - 1], lock := Write)))
  }

  /** Move one node from the parent to the bucket being filled. */
  ghost predicate Moves(s: State, s': State, t: nat, c: Client)
    requires t < |s.clients|
  {
    && c.pc.Scan? && c.chain != [] && c.pos < |ListOf(s, c.tgt)| && c.lock.Write?
    && var n, d := ListOf(s, c.tgt)[c.pos], c.chain[|c.chain| - 1];
       && OnPath(d, HashOf(s, n))
       && s' == WithSlot(WithSlot(s, c.tgt, Slot(false, Drop(ListOf(s, c.tgt), c.pos))),
                         d, Slot(false, [n] + ListOf(s, d)))
  }

  predicate Grows(s: State, c: Client) { s.size + 1 >= Pow2(c.m) - 1 && c.m !in s.segs }

  ghost predicate Inserts(s: State, s': State, t: nat, c: Client, n: NodeId)
    requires t < |s.clients|
  {
    && c.pc.Ready? && n !in s.key
    && s' == With(WithSlot(s, c.tgt, Slot(false, [n] + ListOf(s, c.tgt))), t,
                  c.(node := n, isNew := true, grow := if Grows(s, c) then c.m else 0, pc := ItemTry))
               .(key := s.key[n := c.op.key], alive := s.alive + {n}, size := s.size + 1,
                 segs := if Grows(s, c) then s.segs + {c.m} else s.segs)
  }

  ghost predicate Unlinks(s: State, s': State, t: nat, c: Client, p: nat)
    requires t < |s.clients|
  {
    && c.pc.Unlink? && p < |ListOf(s, c.tgt)| && ListOf(s, c.tgt)[p] == c.node
    && s' == With(WithSlot(s, c.tgt, Slot(false, Drop(ListOf(s, c.tgt), p))), t,
                  c.(lock := Free, pc := if c.op.Exclude? then ItemUpg else ItemWait))
               .(size := s.size - 1)
  }

  ghost predicate Deletes(s: State, s': State, t: nat, c: Client)
    requires t < |s.clients|
  {
    c.pc.Delete? && s' == With(s, t, c.(pc := Idle)).(alive := s.alive - {c.node})
  }

  /** enable_segment: new buckets are all waiting for rehashing. */
  ghost predicate Allocates(s: State, s': State, t: nat, c: Client)
    requires t < |s.clients|
  {
    && c.pc.Alloc?
    && s' == With(s, t, c.(pc := Publish)).(
         alloc := NewLevel(c.grow), segs := s.segs + Segments(NewLevel(c.grow)),
         slots := s.slots + seq(Grown(s, c), _ => Slot(true, [])))
  }

  ghost predicate Publishes(s: State, s': State, t: nat, c: Client)
    requires t < |s.clients|
  {
    c.pc.Publish? && s' == With(s, t, c.(pc := Idle, grow := 0)).(level := NewLevel(c.grow))
  }

  function Grown(s: State, c: Client): nat
  {
    var n := Pow2(NewLevel(c.grow));
    if n >= Pow2(s.alloc) then n - Pow2(s.alloc) else 0
  }

  predicate IdleClient(c: Client) {
    c.pc.Idle? && c.lock.Free? && c.chain == [] && c.acc.NoAcc? && c.tgt == 0 && c.grow == 0 && !c.isNew && c.m == 1
  }

  /** A new table: the two embedded buckets, both empty. */
  predicate Init(s: State) {
    && s.level == 1 && s.alloc == 1 && s.segs == {} && s.size == 0
    && s.slots == [Slot(false, []), Slot(false, [])]
    && s.key == map[] && s.alive == {}
    && forall c :: c in s.clients ==> IdleClient(c)
  }

  /** A run: a finite sequence of states, each reached by one step. */
  ghost predicate Run(tr: seq<State>) {
    |tr| > 0 && Init(tr[0]) && forall i :: 0 <= i < |tr| - 1 ==> Next(tr[i], tr[i + 1])
  }
}
