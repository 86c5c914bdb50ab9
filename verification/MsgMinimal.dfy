/** The packer never needs more bytes than any encoding the decoder accepts. */
module MsgMinimal {
  import opened MsgObject
  import opened MsgDecoder
  import opened MsgRoundTrip

  /** An object that may stand inside `depth` containers and be packed again. */
  predicate Fit(o: Obj, depth: nat) { WellFormed(o) && SizesFit(o) && Nesting(o) + depth <= STACK_SIZE }

  predicate FitEntry(e: Entry, depth: nat) { Fit(e.key, depth) && Fit(e.val, depth) }

  // ----- what a partly decoded message would cost to pack again

  /** The frame at position `depth` of the stack. */
  predicate GoodFrame(f: Frame, depth: nat) {
    match f
    case Items(xs, left) =>
      depth < STACK_SIZE && 1 <= left && (|xs| + left) * OBJECT_SIZE < LIMIT32
          && forall k :: 0 <= k < |xs| ==> Fit(xs[k], depth + 1)
    case Keys(es, left) => GoodEntries(es, left, depth)
    case Vals(es, left, key) => GoodEntries(es, left, depth) && Fit(key, depth + 1)
  }

  predicate GoodEntries(es: seq<Entry>, left: nat, depth: nat) {
    && depth < STACK_SIZE && 1 <= left && (|es| + left) * ENTRY_SIZE < LIMIT32
    && forall k :: 0 <= k < |es| ==> FitEntry(es[k], depth + 1)
  }

  function FrameCost(f: Frame, depth: nat): nat
    requires GoodFrame(f, depth)
  {
    match f
    case Items(xs, left) => |ArrHeader(|xs| + left)| + |PackItems(xs)|
    case Keys(es, left) => |MapHeader(|es| + left)| + |PackEntries(es)|
    case Vals(es, left, key) => |MapHeader(|es| + left)| + |PackEntries(es)| + |Pack(key)|
  }

  predicate GoodStack(stack: seq<Frame>) {
    forall k :: 0 <= k < |stack| ==> GoodFrame(stack[k], k)
  }

  function StackCost(stack: seq<Frame>): nat
    requires GoodStack(stack)
  {
    if stack == [] then 0 else StackCost(stack[..|stack| - 1]) + FrameCost(stack[|stack| - 1], |stack| - 1)
  }

  lemma {:induction false} StackPush(stack: seq<Frame>, f: Frame)
    requires GoodStack(stack) && GoodFrame(f, |stack|)
    ensures GoodStack(stack + [f]) && StackCost(stack + [f]) == StackCost(stack) + FrameCost(f, |stack|)
  {
    assert (stack + [f])[..|stack|] == stack;
  }

  // ----- adding to a container

  lemma {:induction false} ItemsAppend(xs: seq<Obj>, o: Obj)
    requires WellFormed(o) && forall k :: 0 <= k < |xs| ==> WellFormed(xs[k])
    ensures forall k :: 0 <= k < |xs + [o]| ==> WellFormed((xs + [o])[k])
    ensures PackItems(xs + [o]) == PackItems(xs) + Pack(o)
  {
    var all := xs + [o];
    if xs == [] {
      assert all[1..] == [];
      assert PackItems(all) == Pack(all[0]) + PackItems(all[1..]) == Pack(o);
    } else {
      assert all[1..] == xs[1..] + [o] && all[0] == xs[0];
      ItemsAppend(xs[1..], o);
      assert (Pack(xs[0]) + PackItems(xs[1..])) + Pack(o) == Pack(xs[0]) + (PackItems(xs[1..]) + Pack(o));
    }
  }

  lemma {:induction false} EntriesAppend(es: seq<Entry>, e: Entry)
    requires WellFormed(e.key) && WellFormed(e.val)
        && forall k :: 0 <= k < |es| ==> WellFormed(es[k].key) && WellFormed(es[k].val)
    ensures forall k :: 0 <= k < |es + [e]| ==> WellFormed((es + [e])[k].key) && WellFormed((es + [e])[k].val)
    ensures PackEntries(es + [e]) == PackEntries(es) + PackEntry(e)
  {
    var all := es + [e];
    if es == [] {
      assert all[1..] == [];
      assert PackEntries(all) == PackEntry(all[0]) + PackEntries(all[1..]) == PackEntry(e);
    } else {
      assert all[1..] == es[1..] + [e] && all[0] == es[0];
      EntriesAppend(es[1..], e);
      assert (PackEntry(es[0]) + PackEntries(es[1..])) + PackEntry(e) ==
          PackEntry(es[0]) + (PackEntries(es[1..]) + PackEntry(e));
    }
  }

  lemma {:induction false} NestingOfItems(xs: seq<Obj>, depth: nat)
    requires depth <= STACK_SIZE && forall k :: 0 <= k < |xs| ==> Fit(xs[k], depth)
    ensures NestingItems(xs) + depth <= STACK_SIZE
  {
    if xs != [] { NestingOfItems(xs[1..], depth); }
  }

  lemma {:induction false} NestingOfEntries(es: seq<Entry>, depth: nat)
    requires depth <= STACK_SIZE && forall k :: 0 <= k < |es| ==> FitEntry(es[k], depth)
    ensures NestingEntries(es) + depth <= STACK_SIZE
  {
    if es != [] {
      assert FitEntry(es[0], depth);
      NestingOfEntries(es[1..], depth);
    }
  }

  /** A full array. */
  lemma {:induction false} CloseArr(xs: seq<Obj>, o: Obj, depth: nat)
    requires GoodFrame(Items(xs, 1), depth) && Fit(o, depth + 1)
    ensures Fit(Arr(xs + [o]), depth)
    ensures |Pack(Arr(xs + [o]))| == FrameCost(Items(xs, 1), depth) + |Pack(o)|
  {
    ItemsAppend(xs, o);
    NestingOfItems(xs + [o], depth + 1);
  }

  lemma {:induction false} CloseMap(es: seq<Entry>, key: Obj, o: Obj, depth: nat)
    requires GoodFrame(Vals(es, 1, key), depth) && Fit(o, depth + 1)
    ensures Fit(Map(es + [Entry(key, o)]), depth)
    ensures |Pack(Map(es + [Entry(key, o)]))| == FrameCost(Vals(es, 1, key), depth) + |Pack(o)|
  {
    assert forall k :: 0 <= k < |es| ==> FitEntry(es[k], depth + 1) ==> WellFormed(es[k].key) && WellFormed(es[k].val);
    EntriesAppend(es, Entry(key, o));
    var all := es + [Entry(key, o)];
    forall k | 0 <= k < |all| ensures FitEntry(all[k], depth + 1) {
      if k < |es| { assert all[k] == es[k]; }
    }
    NestingOfEntries(all, depth + 1);
    assert forall k :: 0 <= k < |all| ==> FitEntry(all[k], depth + 1) ==> EntryFits(all[k]);
  }

  lemma {:induction false} AddItem(xs: seq<Obj>, left: nat, o: Obj, depth: nat)
    requires GoodFrame(Items(xs, left), depth) && left > 1 && Fit(o, depth + 1)
    ensures GoodFrame(Items(xs + [o], left - 1), depth)
    ensures FrameCost(Items(xs + [o], left - 1), depth) == FrameCost(Items(xs, left), depth) + |Pack(o)|
  {
    ItemsAppend(xs, o);
  }

  lemma {:induction false} AddEntry(es: seq<Entry>, left: nat, key: Obj, o: Obj, depth: nat)
    requires GoodFrame(Vals(es, left, key), depth) && left > 1 && Fit(o, depth + 1)
    ensures GoodFrame(Keys(es + [Entry(key, o)], left - 1), depth)
    ensures FrameCost(Keys(es + [Entry(key, o)], left - 1), depth) == FrameCost(Vals(es, left, key), depth) + |Pack(o)|
  {
    assert forall k :: 0 <= k < |es| ==> FitEntry(es[k], depth + 1) ==> WellFormed(es[k].key) && WellFormed(es[k].val);
    EntriesAppend(es, Entry(key, o));
    var all := es + [Entry(key, o)];
    forall k | 0 <= k < |all| ensures FitEntry(all[k], depth + 1) {
      if k < |es| { assert all[k] == es[k]; }
    }
  }

  /** What was decoded so far stays within `spent`. */
  predicate Within(e: Effect, spent: nat) {
    match e
    case Next(st) => GoodState(st) && Spent(st) <= spent
    case Finish(o) => Fit(o, 0) && |Pack(o)| <= spent
    case Stop(_) => true
  }

  lemma {:induction false} PushItemWithin(rest: seq<Frame>, xs: seq<Obj>, left: nat, o: Obj)
    requires GoodStack(rest) && GoodFrame(Items(xs, left), |rest|) && left > 1 && Fit(o, |rest| + 1)
    ensures Within(Next(At(rest + [Items(xs + [o], left - 1)])),
        StackCost(rest) + FrameCost(Items(xs, left), |rest|) + |Pack(o)|)
  {
    AddItem(xs, left, o, |rest|);
    StackPush(rest, Items(xs + [o], left - 1));
  }

  lemma {:induction false} PushValueWithin(rest: seq<Frame>, es: seq<Entry>, left: nat, key: Obj, o: Obj)
    requires GoodStack(rest) && GoodFrame(Vals(es, left, key), |rest|) && left > 1 && Fit(o, |rest| + 1)
    ensures Within(Next(At(rest + [Keys(es + [Entry(key, o)], left - 1)])),
        StackCost(rest) + FrameCost(Vals(es, left, key), |rest|) + |Pack(o)|)
  {
    AddEntry(es, left, key, o, |rest|);
    StackPush(rest, Keys(es + [Entry(key, o)], left - 1));
  }

  lemma {:induction false} PushKeyWithin(rest: seq<Frame>, es: seq<Entry>, left: nat, o: Obj)
    requires GoodStack(rest) && GoodFrame(Keys(es, left), |rest|) && Fit(o, |rest| + 1)
    ensures Within(Next(At(rest + [Vals(es, left, o)])),
        StackCost(rest) + FrameCost(Keys(es, left), |rest|) + |Pack(o)|)
  {
    StackPush(rest, Vals(es, left, o));
  }

  /** Into the innermost container, which may become full. */
  lemma {:induction false} PushArrWithin(rest: seq<Frame>, xs: seq<Obj>, left: nat, o: Obj)
    requires GoodStack(rest) && GoodFrame(Items(xs, left), |rest|) && Fit(o, |rest| + 1)
    ensures Within(PushObj(rest + [Items(xs, left)], o),
        StackCost(rest) + FrameCost(Items(xs, left), |rest|) + |Pack(o)|)
    decreases |rest|, 1
  {
    PushItem(rest, xs, left, o);
    if left <= 1 {
      CloseArr(xs, o, |rest|);
      PushWithin(rest, Arr(xs + [o]));
    } else {
      PushItemWithin(rest, xs, left, o);
    }
  }

  lemma {:induction false} PushMapWithin(rest: seq<Frame>, f: Frame, o: Obj)
    requires GoodStack(rest) && GoodFrame(f, |rest|) && Fit(o, |rest| + 1) && f.Vals?
    ensures Within(PushObj(rest + [f], o), StackCost(rest) + FrameCost(f, |rest|) + |Pack(o)|)
    decreases |rest|, 1
  {
    PushEntry(rest, f.entries, f.left, f.key, o);
    if f.left <= 1 {
      CloseMap(f.entries, f.key, o, |rest|);
      PushWithin(rest, Map(f.entries + [Entry(f.key, o)]));
    } else {
      PushValueWithin(rest, f.entries, f.left, f.key, o);
    }
  }

  lemma {:induction false} PushWithin(stack: seq<Frame>, o: Obj)
    requires GoodStack(stack) && Fit(o, |stack|)
    ensures Within(PushObj(stack, o), StackCost(stack) + |Pack(o)|)
    decreases |stack|, 0
  {
    if stack != [] {
      var k := |stack| - 1;
      var rest, f := stack[..k], stack[k];
      assert GoodFrame(f, k) && stack == rest + [f];
      if f.Items? {
        PushArrWithin(rest, f.items, f.left, o);
      } else if f.Vals? {
        PushMapWithin(rest, f, o);
      } else {
        PushKeyWithin(rest, f.entries, f.left, o);
      }
    }
  }

  // ----- fields

  /** The fields the decoder can wait for, with their widths. */
  predicate GoodField(cs: nat, t: nat) {
    || (cs == 0x0a && t == 4) || (cs == 0x0b && t == 8)
    || (cs == 0x0c && t == 1) || (cs == 0x0d && t == 2) || (cs == 0x0e && t == 4) || (cs == 0x0f && t == 8)
    || (cs == 0x10 && t == 1) || (cs == 0x11 && t == 2) || (cs == 0x12 && t == 4) || (cs == 0x13 && t == 8)
    || (cs == 0x19 && t == 1) || (cs == 0x1a && t == 2) || (cs == 0x1b && t == 4)
    || (cs == 0x04 && t == 1) || (cs == 0x05 && t == 2) || (cs == 0x06 && t == 4)
    || (cs == 0x07 && t == 1) || (cs == 0x08 && t == 2) || (cs == 0x09 && t == 4)
    || (cs == 0x1c && t == 2) || (cs == 0x1d && t == 4) || (cs == 0x1e && t == 2) || (cs == 0x1f && t == 4)
    || ((cs == CS_STR_VALUE || cs == CS_BIN_VALUE || cs == CS_EXT_VALUE) && 1 <= t < LIMIT32)
  }

  /** The cheapest header for the field. */
  function HeaderCost(cs: nat, t: nat): nat {
    if cs == CS_STR_VALUE && t < LIMIT32 then |StrHeader(t)|
    else if cs == CS_BIN_VALUE && t < LIMIT32 then |BinHeader(t)|
    else if cs == CS_EXT_VALUE && 1 <= t < LIMIT32 then |ExtHeader(t - 1)|
    else 1
  }

  predicate GoodState(st: State) {
    GoodStack(st.stack) && (st.cs != CS_HEADER ==> GoodField(st.cs, st.trail))
  }

  function Spent(st: State): nat
    requires GoodState(st)
  {
    StackCost(st.stack) + if st.cs == CS_HEADER then 0 else HeaderCost(st.cs, st.trail)
  }

  /** What a field asks for costs at most `spent` to ask for again. */
  predicate Cheap(a: Action, spent: nat) {
    match a
    case Push(o) => Fit(o, STACK_SIZE) && |Pack(o)| <= spent
    case Need(cs, t) => cs != CS_HEADER && GoodField(cs, t) && HeaderCost(cs, t) <= spent
    case Open(isMap, n) => n < LIMIT32 && |if isMap then MapHeader(n) else ArrHeader(n)| <= spent
    case Fail(_) => true
  }

  lemma {:induction false} FixedHeaderCheap(b: byte)
    requires b < 0xc4 || b >= 0xe0
    ensures Cheap(Header(b), 1)
  {}

  lemma {:induction false} SizedHeaderCheap(b: byte)
    requires 0xc4 <= b < 0xe0
    ensures Cheap(Header(b), 1)
  {}

  lemma {:induction false} HeaderCheap(b: byte)
    ensures Cheap(Header(b), 1)
  {
    if b < 0xc4 || b >= 0xe0 { FixedHeaderCheap(b); } else { SizedHeaderCheap(b); }
  }

  lemma {:induction false} LengthCheap(cs: nat, t: nat, l: nat)
    requires GoodField(cs, t) && l < Pow256(t)
    ensures 0x19 <= cs <= 0x1b ==> Cheap(Body(CS_STR_VALUE, l), 1 + t)
    ensures 0x04 <= cs <= 0x06 ==> Cheap(Body(CS_BIN_VALUE, l), 1 + t)
    ensures 0x07 <= cs <= 0x09 ==> Cheap(Body(CS_EXT_VALUE, (l + 1) % LIMIT32), 1 + t)
    ensures 0x1c <= cs <= 0x1d ==> Cheap(Open(false, l), 1 + t)
    ensures 0x1e <= cs <= 0x1f ==> Cheap(Open(true, l), 1 + t)
  {
    PowersOf256();
  }

  lemma {:induction false} UintCheap(t: nat, u: nat)
    requires t in {1, 2, 4, 8} && u < Pow256(t)
    ensures Cheap(Push(PosInt(u)), 1 + t)
  {
    PowersOf256();
  }

  lemma {:induction false} IntCheap(t: nat, u: nat)
    requires t in {1, 2, 4, 8} && u < Pow256(t)
    ensures Cheap(Push(Integer(Signed(u, t))), 1 + t)
  {
    PowersOf256();
  }

  lemma {:induction false} ValueCheap(cs: nat, f: seq<byte>)
    requires cs == CS_STR_VALUE || cs == CS_BIN_VALUE || cs == CS_EXT_VALUE
    requires 1 <= |f| < LIMIT32
    ensures Cheap(Trail(cs, f), HeaderCost(cs, |f|) + |f|)
  {}

  lemma {:induction false} TrailCheap(cs: nat, f: seq<byte>)
    requires |f| >= 1 && GoodField(cs, |f|)
    ensures Cheap(Trail(cs, f), HeaderCost(cs, |f|) + |f|)
  {
    PowersOf256();
    if cs >= 32 {
      ValueCheap(cs, f);
    } else if 0x0c <= cs <= 0x0f {
      UintCheap(|f|, Load(f));
    } else if 0x10 <= cs <= 0x13 {
      IntCheap(|f|, Load(f));
    } else {
      LengthCheap(cs, |f|, Load(f));
    }
  }

  // ----- runs

  lemma {:induction false} ActWithin(stack: seq<Frame>, a: Action, spent: nat)
    requires GoodStack(stack) && Cheap(a, spent)
    ensures Within(Act(stack, a), StackCost(stack) + spent)
  {
    match a
    case Push(o) =>
      StackDepth(stack);
      PushWithin(stack, o);
      WithinMore(PushObj(stack, o), StackCost(stack) + |Pack(o)|, StackCost(stack) + spent);
    case Need(cs, t) =>
    case Open(isMap, n) => OpenWithin(stack, isMap, n, spent);
    case Fail(_) =>
  }

  lemma {:induction false} StackDepth(stack: seq<Frame>)
    requires GoodStack(stack)
    ensures |stack| <= STACK_SIZE
  {
    if stack != [] { assert GoodFrame(stack[|stack| - 1], |stack| - 1); }
  }

  lemma {:induction false} WithinMore(e: Effect, m: nat, n: nat)
    requires Within(e, m) && m <= n
    ensures Within(e, n)
  {}

  lemma {:induction false} OpenWithin(stack: seq<Frame>, isMap: bool, n: nat, spent: nat)
    requires GoodStack(stack) && Cheap(Open(isMap, n), spent)
    ensures Within(OpenContainer(stack, isMap, n), StackCost(stack) + spent)
  {
    if |stack| < STACK_SIZE && SizeFits(isMap, n) {
      SizeFitsExactly(isMap, n);
      if n == 0 {
        var o := if isMap then Map([]) else Arr([]);
        PushWithin(stack, o);
        WithinMore(PushObj(stack, o), StackCost(stack) + |Pack(o)|, StackCost(stack) + spent);
      } else {
        StackPush(stack, NewFrame(isMap, n));
      }
    }
  }

  lemma {:induction false} StepWithin(st: State, f: seq<byte>)
    requires GoodState(st) && |f| == Width(st)
    ensures Within(Step(st, f), Spent(st) + |f|)
  {
    if st.cs == CS_HEADER {
      HeaderCheap(f[0]);
      ActWithin(st.stack, Header(f[0]), 1);
    } else {
      TrailCheap(st.cs, f);
      ActWithin(st.stack, Trail(st.cs, f), HeaderCost(st.cs, st.trail) + |f|);
    }
  }

  lemma {:induction false} RunWithin(st: State, bs: seq<byte>, before: nat)
    requires GoodState(st) && Spent(st) <= before
    ensures match Run(st, bs)
            case Done(o, n) => Fit(o, 0) && |Pack(o)| <= before + n
            case Paused(st', n) => GoodState(st') && Spent(st') <= before + n
            case Failed(_, _) => true
    decreases |bs|
  {
    var w := Width(st);
    if |bs| >= w {
      StepWithin(st, bs[..w]);
      var e := Step(st, bs[..w]);
      if e.Next? { RunWithin(e.st, bs[w..], before + w); }
    }
  }

  /** Whatever bytes the decoder accepts, the object is well-formed and decodable, packing it
      again takes no more bytes, and what is packed decodes to the same object, so a second
      round changes nothing. */
  lemma {:induction false} PackIsMinimal(bs: seq<byte>, o: Obj, n: nat, rest: seq<byte>)
    requires Run(START, bs) == Done(o, n)
    ensures WellFormed(o) && Decodable(o)
    ensures |Pack(o)| <= n <= |bs|
    ensures Run(START, Pack(o) + rest) == Done(o, |Pack(o)|)
  {
    RunWithin(START, bs, 0);
    RunBounded(START, bs);
    RoundTrip(o, rest);
  }
}
