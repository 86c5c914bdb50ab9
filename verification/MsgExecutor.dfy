/** template_execute in place: a context whose state, trail and container stack are updated
    step by step, proved against the functional decoder. */
module MsgExecutor {
  import opened MsgObject
  import opened MsgDecoder
  import opened MsgRoundTrip
  import opened MsgPayloads

  datatype Kind = ArrayItem | MapKey | MapValue

  /** One entry of the embedded stack: a container being filled. */
  datatype Slot = Slot(obj: Obj, count: nat, ct: Kind, mapKey: Obj)

  datatype Return = Continue | Success | Error(err: Error)

  predicate GoodSlot(s: Slot) { s.count >= 1 && if s.ct.ArrayItem? then s.obj.Arr? else s.obj.Map? }

  function FrameOf(s: Slot): Frame
    requires GoodSlot(s)
  {
    match s.ct
    case ArrayItem => Items(s.obj.items, s.count)
    case MapKey => Keys(s.obj.entries, s.count)
    case MapValue => Vals(s.obj.entries, s.count, s.mapKey)
  }

  predicate GoodSlots(ss: seq<Slot>) { forall k :: 0 <= k < |ss| ==> GoodSlot(ss[k]) }

  function Frames(ss: seq<Slot>): (r: seq<Frame>)
    requires GoodSlots(ss)
    ensures |r| == |ss|
  {
    if ss == [] then [] else Frames(ss[..|ss| - 1]) + [FrameOf(ss[|ss| - 1])]
  }

  lemma {:induction false} FramesSnoc(ss: seq<Slot>, s: Slot)
    requires GoodSlots(ss) && GoodSlot(s)
    ensures GoodSlots(ss + [s]) && Frames(ss + [s]) == Frames(ss) + [FrameOf(s)]
  {
    assert (ss + [s])[..|ss|] == ss;
  }

  /** The _push step on the innermost container. */
  function Filled(s: Slot, o: Obj): Slot
    requires GoodSlot(s)
  {
    match s.ct
    case ArrayItem => s.(obj := Arr(s.obj.items + [o]), count := s.count - 1)
    case MapKey => s.(mapKey := o, ct := MapValue)
    case MapValue => s.(obj := Map(s.obj.entries + [Entry(s.mapKey, o)]), count := s.count - 1, ct := MapKey)
  }

  lemma {:induction false} FilledIsPush(rest: seq<Frame>, s: Slot, o: Obj)
    requires GoodSlot(s)
    ensures var f := Filled(s, o);
            if f.count == 0 then PushObj(rest + [FrameOf(s)], o) == PushObj(rest, f.obj)
            else GoodSlot(f) && PushObj(rest + [FrameOf(s)], o) == Next(At(rest + [FrameOf(f)]))
  {
    match s.ct
    case ArrayItem => PushItem(rest, s.obj.items, s.count, o);
    case MapKey => PushEntry(rest, s.obj.entries, s.count, o, o);
    case MapValue => PushEntry(rest, s.obj.entries, s.count, s.mapKey, o);
  }

  class Context {
    var cs: nat
    var trail: nat
    var top: nat
    const stack: array<Slot>

    ghost predicate Valid()
      reads this, stack
    {
      && stack.Length == STACK_SIZE && top <= STACK_SIZE
      && GoodSlots(stack[..top])
      && (cs == CS_HEADER || trail >= 1)
    }

    /** The decoder state this context stands for; a trail left over in the header state does
        not matter. */
    ghost function Abs(): State
      requires Valid()
      reads this, stack
    {
      State(cs, if cs == CS_HEADER then 0 else trail, Frames(stack[..top]))
    }

    constructor ()
      ensures Valid() && Abs() == START && fresh(stack)
    {
      cs, trail, top := CS_HEADER, 0, 0;
      stack := new Slot[STACK_SIZE](_ => Slot(Nil, 0, ArrayItem, Nil));
    }

    /** template_init. */
    method Init()
      requires stack.Length == STACK_SIZE
      modifies this, stack
      ensures Valid() && Abs() == START
    {
      cs, trail, top := CS_HEADER, 0, 0;
      stack[0] := stack[0].(obj := Nil);
    }

    /** The _push loop: afterwards either the object is complete and lies in slot 0, or the
        innermost open container has it and the decoder waits for a header. */
    method Push(o: Obj) returns (finished: bool)
      requires Valid()
      modifies this, stack
      ensures Valid() && trail == old(trail)
      ensures match PushObj(old(Abs()).stack, o)
              case Finish(x) => finished && top == 0 && stack[0].obj == x && cs == old(cs)
              case Next(st) => !finished && Abs() == st
              case Stop(_) => false
    {
      var obj := o;
      ghost var eff := PushObj(Abs().stack, o);
      while top > 0
        invariant Valid() && trail == old(trail) && cs == old(cs)
        invariant PushObj(Frames(stack[..top]), obj) == eff
        decreases top
      {
        var c := top - 1;
        var s := stack[c];
        ghost var below := stack[..c];
        assert stack[..top] == below + [s] && s == stack[..top][c];
        FramesSnoc(below, s);
        FilledIsPush(Frames(below), s, obj);
        var filled := Filled(s, obj);
        stack[c] := filled;
        assert stack[..c] == below;
        if filled.count == 0 {
          obj := filled.obj;
          top := c;
        } else {
          cs := CS_HEADER;
          assert stack[..top] == below + [filled];
          FramesSnoc(below, filled);
          finished := false;
          return;
        }
      }
      stack[0] := stack[0].(obj := obj);
      finished := true;
    }

    /** start_container. */
    method Start(isMap: bool, n: nat) returns (ret: Return)
      requires Valid()
      modifies this, stack
      ensures Valid() && trail == old(trail)
      ensures match OpenContainer(old(Abs()).stack, isMap, n)
              case Finish(x) => ret == Success && top == 0 && stack[0].obj == x && cs == old(cs)
              case Next(st) => ret == Continue && Abs() == st
              case Stop(e) => ret == Error(e)
    {
      if top >= STACK_SIZE || !SizeFits(isMap, n) {
        return Error(NoMem);
      }
      var empty := if isMap then Map([]) else Arr([]);
      ghost var below := stack[..top];
      if n == 0 {
        stack[top] := stack[top].(obj := empty);
        assert stack[..top] == below;
        var finished := Push(empty);
        return if finished then Success else Continue;
      }
      var slot := Slot(empty, n, if isMap then MapKey else ArrayItem, stack[top].mapKey);
      stack[top] := slot;
      top := top + 1;
      cs := CS_HEADER;
      assert stack[..top] == below + [slot];
      FramesSnoc(below, slot);
      return Continue;
    }

    /** What a complete field asks for. */
    method Perform(a: Action) returns (ret: Return)
      requires Valid()
      modifies this, stack
      ensures Valid()
      ensures match Act(old(Abs()).stack, a)
              case Finish(x) => ret == Success && top == 0 && stack[0].obj == x
              case Next(st) => ret == Continue && Abs() == st
              case Stop(e) => ret == Error(e)
    {
      match a
      case Push(o) =>
        var finished := Push(o);
        ret := if finished then Success else Continue;
      case Need(c, t) =>
        if c != CS_HEADER && t >= 1 {
          cs, trail := c, t;
          ret := Continue;
        } else {
          ret := Error(ParseError);
        }
      case Open(isMap, n) => ret := Start(isMap, n);
      case Fail(e) => ret := Error(e);
    }

    /** One complete field, up to `q`, within a run from `start` whose outcome is `whole`;
        `refers` tells whether a callback pointed into the buffer. */
    method Field(
        data: seq<byte>, p: nat, q: nat, ghost start: nat, ghost whole: Outcome) returns (ret: Return, refers: bool)
      requires Valid() && start <= p < q <= |data| && q == p + Width(Abs())
      requires whole == Later(Run(Abs(), data[p..]), p - start)
      modifies this, stack
      ensures Valid()
      ensures match ret
              case Continue => whole == Later(Run(Abs(), data[q..]), q - start)
              case Success => top == 0 && whole == Done(stack[0].obj, q - start)
              case Error(e) => whole == Failed(e, q - 1 - start)
      ensures old(Spans(Abs(), data[p..])) != []
          <==> !ret.Error? && (refers || (ret.Continue? && Spans(Abs(), data[q..]) != []))
    {
      FieldStep(Abs(), data, p, q, start, whole);
      FieldSpans(Abs(), data, p, q);
      var a := if cs == CS_HEADER then Header(data[p]) else Trail(cs, data[p..q]);
      refers := SpanOf(a, q - p) != [];
      ret := Perform(a);
    }

    /** The do-while loop, from `start` on; `whole` and `points` are the outcome of the run and
        its spans. */
    method Loop(
        data: seq<byte>, start: nat, ghost whole: Outcome, ghost points: bool)
        returns (ret: Return, p: nat, refers: bool)
      requires Valid() && start <= |data|
      requires whole == Run(Abs(), data[start..]) && (points <==> Spans(Abs(), data[start..]) != [])
      modifies this, stack
      ensures Valid() && start <= p <= |data|
      ensures match ret
              case Continue => whole == Paused(Abs(), p - start)
              case Success => top == 0 && whole == Done(stack[0].obj, p - start)
              case Error(e) => whole == Failed(e, p - start)
      ensures refers <==> points
    {
      p, refers := start, false;
      LaterZero(whole);
      while (if cs == CS_HEADER then 1 else trail) <= |data| - p
        invariant Valid() && start <= p <= |data|
        invariant whole == Later(Run(Abs(), data[p..]), p - start)
        invariant points <==> refers || Spans(Abs(), data[p..]) != []
        decreases |data| - p
      {
        var q := p + if cs == CS_HEADER then 1 else trail;
        var r;
        ret, r := Field(data, p, q, start, whole);
        if ret.Error? {
          p := q - 1;
          return;
        }
        p := q;
        refers := refers || r;
        if ret.Success? { return; }
      }
      ret := Continue;
      PausedHere(Abs(), data[p..], whole, p - start);
    }

    /** template_execute on the bytes of `data` from `off`; `refers` tells whether the
        referenced flag was set. */
    method Execute(data: seq<byte>, off: nat) returns (ret: Return, p: nat, refers: bool)
      requires Valid() && off <= |data|
      modifies this, stack
      ensures Valid() && off <= p <= |data|
      ensures match Run(old(Abs()), data[off..])
              case Paused(st, u) => ret == Continue && Abs() == st && p == off + u
              case Done(o, u) => ret == Success && top == 0 && stack[0].obj == o && p == off + u
              case Failed(e, u) => ret == Error(e) && p == off + u
      ensures refers <==> Spans(old(Abs()), data[off..]) != []
    {
      ret, p, refers := Loop(data, off, Run(Abs(), data[off..]), Spans(Abs(), data[off..]) != []);
    }
  }

  /** What one field contributes to the outcome of the whole run. */
  lemma {:induction false} FieldStep(st: State, data: seq<byte>, p: nat, q: nat, start: nat, whole: Outcome)
    requires start <= p < q <= |data| && q == p + Width(st) && whole == Later(Run(st, data[p..]), p - start)
    ensures match Step(st, data[p..q])
            case Next(st') => whole == Later(Run(st', data[q..]), q - start)
            case Finish(o) => whole == Done(o, q - start)
            case Stop(e) => whole == Failed(e, q - 1 - start)
  {
    var field, rest := data[p..q], data[q..];
    assert data[p..] == field + rest;
    RunField(st, field, rest);
    var e := Step(st, field);
    if e.Next? { LaterSum(Run(e.st, rest), q - p, p - start); }
  }

  lemma {:induction false} FieldSpans(st: State, data: seq<byte>, p: nat, q: nat)
    requires p < q <= |data| && q == p + Width(st)
    ensures Spans(st, data[p..]) != [] <==>
            match Step(st, data[p..q])
            case Next(st') => FieldSpan(st, data[p..q]) != [] || Spans(st', data[q..]) != []
            case Finish(_) => FieldSpan(st, data[p..q]) != []
            case Stop(_) => false
  {
    assert data[p..][..q - p] == data[p..q] && data[p..][q - p..] == data[q..];
  }

  lemma {:induction false} PausedHere(st: State, bs: seq<byte>, whole: Outcome, before: nat)
    requires |bs| < Width(st) && whole == Later(Run(st, bs), before)
    ensures whole == Paused(st, before) && Spans(st, bs) == []
  {}
}
