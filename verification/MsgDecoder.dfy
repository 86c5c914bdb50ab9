/** The resumable decoder (unpack_template.h, the callbacks of unpack.c) as a machine that
    consumes one field at a time: a header byte, or the `trail` bytes a header announced. */
module MsgDecoder {
  import opened MsgObject

  const STACK_SIZE := 32
  const OBJECT_SIZE := 24
  const ENTRY_SIZE := 48

  const CS_HEADER := 0
  const CS_STR_VALUE := 32
  const CS_BIN_VALUE := 33
  const CS_EXT_VALUE := 34

  datatype Error = ParseError | NoMem

  /** A container being filled: what it has, how many elements are missing and, for a map,
      whether a key or a value comes next. */
  datatype Frame =
    | Items(items: seq<Obj>, left: nat)
    | Keys(entries: seq<Entry>, left: nat)
    | Vals(entries: seq<Entry>, left: nat, key: Obj)

  datatype RawState = State(cs: nat, trail: nat, stack: seq<Frame>)

  /** Outside the header state the machine waits for at least one byte. */
  type State = s: RawState | s.cs == CS_HEADER || s.trail >= 1 witness State(0, 0, [])

  const START: State := State(CS_HEADER, 0, [])

  /** What a complete field asks for. */
  datatype Action = Push(obj: Obj) | Need(cs: nat, trail: nat) | Open(isMap: bool, count: nat) | Fail(err: Error)

  /** What it leads to. */
  datatype Effect = Next(st: State) | Finish(obj: Obj) | Stop(err: Error)

  datatype Outcome = Paused(st: State, used: nat) | Done(obj: Obj, used: nat) | Failed(err: Error, used: nat)

  function Shift1(n: nat): (r: nat)
    ensures r >= 1
  {
    if n == 0 then 1 else if n == 1 then 2 else if n == 2 then 4 else 8
  }

  /** again_fixed_trail_if_zero on the value of a str, bin or ext. */
  function Body(cs: nat, len: nat): Action {
    if len > 0 then Need(cs, len)
    else if cs == CS_STR_VALUE then Push(Str([]))
    else if cs == CS_BIN_VALUE then Push(Bin([]))
    else Fail(ParseError)
  }

  /** The switch on the header byte. */
  function Header(b: byte): Action {
    if b <= 0x7f then Push(PosInt(b))
    else if b <= 0x8f then Open(true, b % 16)
    else if b <= 0x9f then Open(false, b % 16)
    else if b <= 0xbf then Body(CS_STR_VALUE, b % 32)
    else if b >= 0xe0 then Push(NegInt(b - 256))
    else if b == 0xc0 then Push(Nil)
    else if b == 0xc2 then Push(Bool(false))
    else if b == 0xc3 then Push(Bool(true))
    else if 0xc4 <= b <= 0xc6 then Need(b % 32, Shift1(b % 4))
    else if 0xc7 <= b <= 0xc9 then Need(b % 32, Shift1((b + 1) % 4))
    else if 0xca <= b <= 0xd3 then Need(b % 32, Shift1(b % 4))
    else if 0xd4 <= b <= 0xd7 then Body(CS_EXT_VALUE, Shift1(b % 4) + 1)
    else if b == 0xd8 then Body(CS_EXT_VALUE, 17)
    else if 0xd9 <= b <= 0xdb then Need(b % 32, Shift1(b % 4 - 1))
    else if 0xdc <= b <= 0xdf then Need(b % 32, 2 * Shift1(b % 2))
    else Fail(ParseError)
  }

  function Integer(i: int): Obj { if i >= 0 then PosInt(i) else NegInt(i) }

  /** The switch on the state once its `trail` bytes `n` are there. */
  function Trail(cs: nat, n: seq<byte>): Action
    requires |n| >= 1
  {
    if cs == 0x0a then Push(Float32(Load(n)))
    else if cs == 0x0b then Push(Float64(Load(n)))
    else if 0x0c <= cs <= 0x0f then Push(PosInt(Load(n)))
    else if 0x10 <= cs <= 0x13 then Push(Integer(Signed(Load(n), |n|)))
    else if 0x14 <= cs <= 0x17 then Body(CS_EXT_VALUE, Shift1(cs - 0x14) + 1)
    else if cs == 0x18 then Body(CS_EXT_VALUE, 17)
    else if 0x19 <= cs <= 0x1b then Body(CS_STR_VALUE, Load(n))
    else if 0x04 <= cs <= 0x06 then Body(CS_BIN_VALUE, Load(n))
    else if 0x07 <= cs <= 0x09 then Body(CS_EXT_VALUE, (Load(n) + 1) % LIMIT32)
    else if cs == CS_STR_VALUE then Push(Str(n))
    else if cs == CS_BIN_VALUE then Push(Bin(n))
    else if cs == CS_EXT_VALUE then Push(Ext(TypeOf(n[0]), n[1..]))
    else if 0x1c <= cs <= 0x1d then Open(false, Load(n))
    else if 0x1e <= cs <= 0x1f then Open(true, Load(n))
    else Fail(ParseError)
  }

  /** The _push loop: add a finished object to the innermost container, closing containers
      that become full. */
  function PushObj(stack: seq<Frame>, o: Obj): Effect
    decreases |stack|
  {
    if stack == [] then Finish(o)
    else
      var k := |stack| - 1;
      var rest := stack[..k];
      match stack[k]
      case Items(xs, left) =>
        if left <= 1 then PushObj(rest, Arr(xs + [o]))
        else Next(State(CS_HEADER, 0, rest + [Items(xs + [o], left - 1)]))
      case Keys(es, left) => Next(State(CS_HEADER, 0, rest + [Vals(es, left, o)]))
      case Vals(es, left, key) =>
        if left <= 1 then PushObj(rest, Map(es + [Entry(key, o)]))
        else Next(State(CS_HEADER, 0, rest + [Keys(es + [Entry(key, o)], left - 1)]))
  }

  /** The 32-bit size computation of the array and map callbacks, and its overflow test. */
  predicate SizeFits(isMap: bool, n: nat) {
    var each := if isMap then ENTRY_SIZE else OBJECT_SIZE;
    ((n * each) % LIMIT32) / each == n
  }

  /** start_container. */
  function OpenContainer(stack: seq<Frame>, isMap: bool, n: nat): Effect {
    if |stack| >= STACK_SIZE || !SizeFits(isMap, n) then Stop(NoMem)
    else if n == 0 then PushObj(stack, if isMap then Map([]) else Arr([]))
    else Next(State(CS_HEADER, 0, stack + [if isMap then Keys([], n) else Items([], n)]))
  }

  function Act(stack: seq<Frame>, a: Action): Effect {
    match a
    case Push(o) => PushObj(stack, o)
    case Need(cs, t) => if cs != CS_HEADER && t >= 1 then Next(State(cs, t, stack)) else Stop(ParseError)
    case Open(isMap, n) => OpenContainer(stack, isMap, n)
    case Fail(e) => Stop(e)
  }

  /** The length of the field the machine waits for. */
  function Width(st: State): (r: nat)
    ensures r >= 1
  {
    if st.cs == CS_HEADER then 1 else st.trail
  }

  function Step(st: State, field: seq<byte>): Effect
    requires |field| == Width(st)
  {
    Act(st.stack, if st.cs == CS_HEADER then Header(field[0]) else Trail(st.cs, field))
  }

  function Later(o: Outcome, n: nat): Outcome {
    match o
    case Paused(st, u) => Paused(st, u + n)
    case Done(x, u) => Done(x, u + n)
    case Failed(e, u) => Failed(e, u + n)
  }

  /** template_execute: consume complete fields until an object is finished, an error is met
      (the cursor then stays on the last byte of the offending field), or the next field is
      not complete. */
  function Run(st: State, bs: seq<byte>): Outcome
    decreases |bs|
  {
    var w := Width(st);
    if |bs| < w then Paused(st, 0)
    else
      match Step(st, bs[..w])
      case Next(st') => Later(Run(st', bs[w..]), w)
      case Finish(o) => Done(o, w)
      case Stop(e) => Failed(e, w - 1)
  }

  // ----- resuming

  /** What becomes of the outcome on `a` when `b` follows: a paused run goes on. */
  function Joined(part: Outcome, a: seq<byte>, b: seq<byte>): Outcome {
    if part.Paused? && part.used <= |a| then Later(Run(part.st, a[part.used..] + b), part.used) else part
  }

  lemma {:induction false} JoinedLater(part: Outcome, a: seq<byte>, b: seq<byte>, w: nat)
    requires w <= |a| && part.used <= |a| - w
    ensures Joined(Later(part, w), a, b) == Later(Joined(part, a[w..], b), w)
  {
    if part.Paused? {
      assert a[w..][part.used..] == a[w + part.used..];
      LaterSum(Run(part.st, a[w + part.used..] + b), part.used, w);
    }
  }

  /** One field further, the rest continues. */
  lemma {:induction false} JoinedNext(st: State, a: seq<byte>, b: seq<byte>, w: nat, st': State)
    requires w == Width(st) <= |a| && Step(st, a[..w]) == Next(st')
    requires Run(st', a[w..]).used <= |a| - w && Run(st', a[w..] + b) == Joined(Run(st', a[w..]), a[w..], b)
    ensures Run(st, a + b) == Joined(Run(st, a), a, b)
  {
    assert (a + b)[..w] == a[..w] && (a + b)[w..] == a[w..] + b;
    RunNext(st, a, w, st');
    RunNext(st, a + b, w, st');
    JoinedLater(Run(st', a[w..]), a, b, w);
  }

  lemma {:induction false} LaterSum(o: Outcome, m: nat, n: nat)
    ensures Later(Later(o, m), n) == Later(o, m + n)
  {}

  lemma {:induction false} RunNext(st: State, bs: seq<byte>, w: nat, st': State)
    requires w == Width(st) <= |bs| && Step(st, bs[..w]) == Next(st')
    ensures Run(st, bs) == Later(Run(st', bs[w..]), w)
  {}

  /** Stopping and resuming anywhere is the same as one uninterrupted run: a paused run goes
      on from its state with the unconsumed bytes and whatever arrives later; a finished or
      failed run does not depend on what follows. */
  lemma {:induction false} RunSplit(st: State, a: seq<byte>, b: seq<byte>)
    ensures Run(st, a).used <= |a| && Run(st, a + b) == Joined(Run(st, a), a, b)
    decreases |a|
  {
    RunBounded(st, a);
    var w := Width(st);
    if |a| < w {
      assert a[0..] == a;
      LaterZero(Run(st, a + b));
    } else {
      assert (a + b)[..w] == a[..w];
      var e := Step(st, a[..w]);
      if e.Next? {
        RunSplit(e.st, a[w..], b);
        JoinedNext(st, a, b, w, e.st);
      }
    }
  }

  lemma {:induction false} LaterZero(o: Outcome)
    ensures Later(o, 0) == o
  {}

  /** A run never consumes more than it was given. */
  lemma {:induction false} RunBounded(st: State, a: seq<byte>)
    ensures Run(st, a).used <= |a|
    ensures Run(st, a).Done? ==> Run(st, a).used >= 1
    decreases |a|
  {
    var w := Width(st);
    if |a| >= w {
      var e := Step(st, a[..w]);
      if e.Next? { RunBounded(e.st, a[w..]); }
    }
  }
}
