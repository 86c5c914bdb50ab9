/** Where the decoder leaves its str, bin and ext payloads: it does not copy them but points
    into the buffer it was run on. */
module MsgPayloads {
  import opened MsgObject
  import opened MsgDecoder
  import opened MsgRoundTrip

  /** `len` bytes from `at` on. */
  datatype Span = Span(at: nat, len: nat)

  // ----- the payloads of an object, in encoding order

  function Payloads(o: Obj): seq<seq<byte>>
    decreases o, 1
  {
    match o
    case Str(s) => [s]
    case Bin(s) => [s]
    case Ext(_, s) => [s]
    case Arr(xs) => ItemPayloads(xs)
    case Map(es) => EntryPayloads(es)
    case _ => []
  }

  function ItemPayloads(xs: seq<Obj>): seq<seq<byte>>
    decreases xs, 0
  {
    if xs == [] then [] else ItemPayloads(xs[..|xs| - 1]) + Payloads(xs[|xs| - 1])
  }

  function EntryPayloads(es: seq<Entry>): seq<seq<byte>>
    decreases es, 0
  {
    if es == [] then [] else EntryPayloads(es[..|es| - 1]) + PairPayloads(es[|es| - 1])
  }

  function PairPayloads(e: Entry): seq<seq<byte>>
    decreases e, 0
  {
    Payloads(e.key) + Payloads(e.val)
  }

  function FramePayloads(f: Frame): seq<seq<byte>> {
    match f
    case Items(xs, _) => ItemPayloads(xs)
    case Keys(es, _) => EntryPayloads(es)
    case Vals(es, _, key) => EntryPayloads(es) + Payloads(key)
  }

  function StackPayloads(stack: seq<Frame>): seq<seq<byte>> {
    if stack == [] then [] else StackPayloads(stack[..|stack| - 1]) + FramePayloads(stack[|stack| - 1])
  }

  /** The payloads of what an effect leaves behind. */
  function Left(e: Effect): seq<seq<byte>> {
    match e
    case Next(st) => StackPayloads(st.stack)
    case Finish(o) => Payloads(o)
    case Stop(_) => []
  }

  lemma {:induction false} StackSnoc(rest: seq<Frame>, f: Frame)
    ensures StackPayloads(rest + [f]) == StackPayloads(rest) + FramePayloads(f)
  {
    assert (rest + [f])[..|rest|] == rest;
  }

  lemma {:induction false} ItemsSnoc(xs: seq<Obj>, o: Obj)
    ensures Payloads(Arr(xs + [o])) == ItemPayloads(xs) + Payloads(o)
  {
    assert (xs + [o])[..|xs|] == xs;
  }

  lemma {:induction false} EntriesSnoc(es: seq<Entry>, key: Obj, o: Obj)
    ensures Payloads(Map(es + [Entry(key, o)])) == (EntryPayloads(es) + Payloads(key)) + Payloads(o)
  {
    var e := Entry(key, o);
    assert (es + [e])[..|es|] == es;
    assert (EntryPayloads(es) + Payloads(key)) + Payloads(o) == EntryPayloads(es) + PairPayloads(e);
  }

  lemma {:induction false} Assoc(a: seq<seq<byte>>, b: seq<seq<byte>>, c: seq<seq<byte>>)
    ensures (a + b) + c == a + (b + c)
  {}

  /** Whatever container the object completes or joins, its payloads come last. */
  lemma {:induction false} PushLeaves(stack: seq<Frame>, o: Obj)
    ensures !PushObj(stack, o).Stop? && Left(PushObj(stack, o)) == StackPayloads(stack) + Payloads(o)
    decreases |stack|, 0
  {
    if stack == [] {
      assert StackPayloads(stack) + Payloads(o) == Payloads(o);
    } else {
      var rest, f := stack[..|stack| - 1], stack[|stack| - 1];
      assert stack == rest + [f];
      StackSnoc(rest, f);
      Assoc(StackPayloads(rest), FramePayloads(f), Payloads(o));
      match f
      case Items(xs, left) => LeavesItem(rest, xs, left, o);
      case Keys(es, left) => StackSnoc(rest, Vals(es, left, o));
      case Vals(es, left, key) => LeavesValue(rest, es, left, key, o);
    }
  }

  lemma {:induction false} LeavesItem(rest: seq<Frame>, xs: seq<Obj>, left: nat, o: Obj)
    ensures var e := PushObj(rest + [Items(xs, left)], o);
            !e.Stop? && Left(e) == StackPayloads(rest) + (ItemPayloads(xs) + Payloads(o))
    decreases |rest|, 1
  {
    PushItem(rest, xs, left, o);
    ItemsSnoc(xs, o);
    if left <= 1 { PushLeaves(rest, Arr(xs + [o])); } else { StackSnoc(rest, Items(xs + [o], left - 1)); }
  }

  lemma {:induction false} LeavesValue(rest: seq<Frame>, es: seq<Entry>, left: nat, key: Obj, o: Obj)
    ensures var e := PushObj(rest + [Vals(es, left, key)], o);
            !e.Stop? && Left(e) == StackPayloads(rest) + ((EntryPayloads(es) + Payloads(key)) + Payloads(o))
    decreases |rest|, 1
  {
    PushEntry(rest, es, left, key, o);
    EntriesSnoc(es, key, o);
    if left <= 1 { PushLeaves(rest, Map(es + [Entry(key, o)])); }
        else { StackSnoc(rest, Keys(es + [Entry(key, o)], left - 1)); }
  }

  // ----- spans

  /** What the str, bin and ext callbacks point at, in a field of `n` bytes. */
  function SpanOf(a: Action, n: nat): seq<Span> {
    if !a.Push? then []
    else match a.obj
      case Str(s) => [Span(0, |s|)]
      case Bin(s) => [Span(0, |s|)]
      case Ext(_, s) => if |s| <= n then [Span(n - |s|, |s|)] else []
      case _ => []
  }

  function FieldSpan(st: State, field: seq<byte>): seq<Span>
    requires |field| == Width(st)
  {
    SpanOf(if st.cs == CS_HEADER then Header(field[0]) else Trail(st.cs, field), |field|)
  }

  function Move(spans: seq<Span>, n: nat): seq<Span> {
    seq(|spans|, i requires 0 <= i < |spans| => Span(spans[i].at + n, spans[i].len))
  }

  /** The spans of a run, relative to the bytes it was given. */
  function Spans(st: State, bs: seq<byte>): seq<Span>
    decreases |bs|
  {
    var w := Width(st);
    if |bs| < w then []
    else
      match Step(st, bs[..w])
      case Next(st') => FieldSpan(st, bs[..w]) + Move(Spans(st', bs[w..]), w)
      case Finish(o) => FieldSpan(st, bs[..w])
      case Stop(e) => []
  }

  predicate Inside(spans: seq<Span>, n: nat) { forall i :: 0 <= i < |spans| ==> spans[i].at + spans[i].len <= n }

  function Read(bs: seq<byte>, spans: seq<Span>): (r: seq<seq<byte>>)
    requires Inside(spans, |bs|)
    ensures |r| == |spans|
  {
    seq(|spans|, i requires 0 <= i < |spans| => bs[spans[i].at..spans[i].at + spans[i].len])
  }

  /** The span of a pushed object reads its payload. */
  predicate Points(a: Action, f: seq<byte>) {
    && Inside(SpanOf(a, |f|), |f|)
    && (a.Push? ==> Read(f, SpanOf(a, |f|)) == Payloads(a.obj))
  }

  lemma {:induction false} TrailPoints(cs: nat, f: seq<byte>)
    requires |f| >= 1
    ensures Points(Trail(cs, f), f)
  {
    if cs == CS_STR_VALUE || cs == CS_BIN_VALUE {
      assert f[0..|f|] == f;
    } else if cs == CS_EXT_VALUE {
      assert f[1..|f|] == f[1..];
    } else if SpanOf(Trail(cs, f), |f|) != [] {
      assert f[0..0] == [];
    }
  }

  lemma {:induction false} HeaderPoints(f: seq<byte>)
    requires |f| == 1
    ensures Points(Header(f[0]), f)
  {
    if SpanOf(Header(f[0]), 1) != [] { assert f[0..0] == []; }
  }

  lemma {:induction false} ActReads(stack: seq<Frame>, a: Action, f: seq<byte>)
    requires Points(a, f)
    ensures !Act(stack, a).Stop? ==> Left(Act(stack, a)) == StackPayloads(stack) + Read(f, SpanOf(a, |f|))
  {
    var none: seq<seq<byte>> := [];
    assert StackPayloads(stack) + none == StackPayloads(stack);
    match a
    case Push(o) => PushLeaves(stack, o);
    case Open(isMap, n) => if !Act(stack, a).Stop? { OpenLeaves(stack, isMap, n); }
    case Need(_, _) =>
    case Fail(_) =>
  }

  lemma {:induction false} FieldReads(st: State, f: seq<byte>)
    requires |f| == Width(st)
    ensures Inside(FieldSpan(st, f), |f|)
    ensures !Step(st, f).Stop? ==> Left(Step(st, f)) == StackPayloads(st.stack) + Read(f, FieldSpan(st, f))
  {
    if st.cs == CS_HEADER {
      HeaderPoints(f);
      ActReads(st.stack, Header(f[0]), f);
    } else {
      TrailPoints(st.cs, f);
      ActReads(st.stack, Trail(st.cs, f), f);
    }
  }

  lemma {:induction false} OpenLeaves(stack: seq<Frame>, isMap: bool, n: nat)
    requires !OpenContainer(stack, isMap, n).Stop?
    ensures Left(OpenContainer(stack, isMap, n)) == StackPayloads(stack)
  {
    if n == 0 {
      PushLeaves(stack, if isMap then Map([]) else Arr([]));
    } else {
      StackSnoc(stack, NewFrame(isMap, n));
    }
  }

  lemma {:induction false} SliceShift(f: seq<byte>, rest: seq<byte>, i: nat, j: nat)
    requires i <= j <= |rest|
    ensures (f + rest)[i + |f|..j + |f|] == rest[i..j]
  {}

  lemma {:induction false} ReadSplit(f: seq<byte>, rest: seq<byte>, a: seq<Span>, b: seq<Span>)
    requires Inside(a, |f|) && Inside(b, |rest|)
    ensures Inside(a + Move(b, |f|), |f + rest|)
    ensures Read(f + rest, a + Move(b, |f|)) == Read(f, a) + Read(rest, b)
  {
    var bs, all := f + rest, a + Move(b, |f|);
    assert Inside(all, |bs|);
    forall i | 0 <= i < |all| ensures Read(bs, all)[i] == (Read(f, a) + Read(rest, b))[i] {
      if i < |a| {
        assert bs[a[i].at..a[i].at + a[i].len] == f[a[i].at..a[i].at + a[i].len];
      } else {
        var s := b[i - |a|];
        assert all[i] == Span(s.at + |f|, s.len);
        SliceShift(f, rest, s.at, s.at + s.len);
      }
    }
  }

  /** The payloads of an outcome. */
  function LeftBy(out: Outcome): seq<seq<byte>> {
    match out
    case Paused(st, _) => StackPayloads(st.stack)
    case Done(o, _) => Payloads(o)
    case Failed(_, _) => []
  }

  lemma {:induction false} InsideMore(a: seq<Span>, b: seq<Span>, m: nat, n: nat)
    requires Inside(a, m) && Inside(b, n)
    ensures Inside(a + Move(b, m), m + n)
  {}

  /** Every span lies in the bytes the run consumed (so a run that points anywhere consumed
      something), and unless it failed, the payloads of the object, finished or in progress,
      are those it had before followed by what the spans read, in order. */
  lemma {:induction false} RunReads(st: State, bs: seq<byte>)
    ensures Run(st, bs).used <= |bs|
    ensures Inside(Spans(st, bs), Run(st, bs).used) && Inside(Spans(st, bs), |bs|)
    ensures Spans(st, bs) != [] ==> Run(st, bs).used >= 1
    ensures !Run(st, bs).Failed? ==> LeftBy(Run(st, bs)) == StackPayloads(st.stack) + Read(bs, Spans(st, bs))
    decreases |bs|
  {
    RunBounded(st, bs);
    var w := Width(st);
    var before := StackPayloads(st.stack);
    var none: seq<seq<byte>> := [];
    if |bs| < w {
      assert before + none == before;
    } else {
      var f, rest := bs[..w], bs[w..];
      assert bs == f + rest;
      FieldReads(st, f);
      var e := Step(st, f);
      if e.Next? {
        RunReads(e.st, rest);
        InsideMore(FieldSpan(st, f), Spans(e.st, rest), w, Run(e.st, rest).used);
        ReadSplit(f, rest, FieldSpan(st, f), Spans(e.st, rest));
        Assoc(before, Read(f, FieldSpan(st, f)), Read(rest, Spans(e.st, rest)));
      } else if e.Finish? {
        ReadFirst(f, rest, FieldSpan(st, f));
      }
    }
  }

  lemma {:induction false} ReadFirst(f: seq<byte>, rest: seq<byte>, a: seq<Span>)
    requires Inside(a, |f|)
    ensures Read(f + rest, a) == Read(f, a)
  {
    forall i | 0 <= i < |a| ensures Read(f + rest, a)[i] == Read(f, a)[i] {
      assert (f + rest)[a[i].at..a[i].at + a[i].len] == f[a[i].at..a[i].at + a[i].len];
    }
  }
}
