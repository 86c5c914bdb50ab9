/** Decoding what the packer produced. */
module MsgRoundTrip {
  import opened MsgObject
  import opened MsgDecoder

  /** The decoder's answer on an encoding met with `depth` containers open. */
  datatype Verdict = Fine | Bad(err: Error)

  function Both(v1: Verdict, v2: Verdict): Verdict { if v1 == Fine then v2 else v1 }

  /** The first reason, in encoding order, why the decoder rejects the encoding of `o`. */
  function Judge(o: Obj, depth: nat): Verdict
    decreases o, 1
  {
    match o
    case Ext(_, s) => if |s| + 1 == LIMIT32 then Bad(ParseError) else Fine
    case Arr(xs) =>
      if depth >= STACK_SIZE || !SizeFits(false, |xs|) then Bad(NoMem) else JudgeItems(xs, depth + 1)
    case Map(es) =>
      if depth >= STACK_SIZE || !SizeFits(true, |es|) then Bad(NoMem) else JudgeEntries(es, depth + 1)
    case _ => Fine
  }

  function JudgeItems(xs: seq<Obj>, depth: nat): Verdict
    decreases xs, 0
  {
    if xs == [] then Fine else Both(Judge(xs[0], depth), JudgeItems(xs[1..], depth))
  }

  function JudgeEntry(e: Entry, depth: nat): Verdict
    decreases e, 0
  {
    Both(Judge(e.key, depth), Judge(e.val, depth))
  }

  function JudgeEntries(es: seq<Entry>, depth: nat): Verdict
    decreases es, 0
  {
    if es == [] then Fine else Both(JudgeEntry(es[0], depth), JudgeEntries(es[1..], depth))
  }

  /** Go on after `n` bytes led to `e`. */
  function Resume(e: Effect, n: nat, rest: seq<byte>): Outcome
    requires n >= 1
  {
    match e
    case Next(st) => Later(Run(st, rest), n)
    case Finish(o) => Done(o, n)
    case Stop(x) => Failed(x, n - 1)
  }

  /** The run on an encoding, followed by anything, ends as judged: either the object is
      pushed after exactly its bytes, or the error is reported. */
  predicate EndsAs(out: Outcome, v: Verdict, stack: seq<Frame>, o: Obj, n: nat, rest: seq<byte>) {
    match v
    case Fine => n >= 1 && out == Resume(PushObj(stack, o), n, rest)
    case Bad(e) => out.Failed? && out.err == e
  }

  function At(stack: seq<Frame>): State { State(CS_HEADER, 0, stack) }

  // ----- one and two fields

  lemma {:induction false} RunField(st: State, f: seq<byte>, rest: seq<byte>)
    requires |f| == Width(st)
    ensures Run(st, f + rest) == Resume(Step(st, f), |f|, rest)
  {
    assert (f + rest)[..|f|] == f && (f + rest)[|f|..] == rest;
  }

  lemma {:induction false} RunByte(stack: seq<Frame>, b: byte, rest: seq<byte>)
    ensures Run(At(stack), [b] + rest) == Resume(Act(stack, Header(b)), 1, rest)
  {
    RunField(At(stack), [b], rest);
  }

  lemma {:induction false} LaterLater(e: Effect, m: nat, n: nat, rest: seq<byte>)
    requires m >= 1
    ensures Later(Resume(e, m, rest), n) == Resume(e, m + n, rest)
  {}

  // ----- headers

  /** A header byte alone, or one that announces a field and the field. */
  predicate Complete(h: seq<byte>) {
    |h| >= 1 && (|h| == 1 || (Header(h[0]).Need? && Header(h[0]).cs != CS_HEADER && Header(h[0]).trail == |h| - 1))
  }

  /** What the header asks for. */
  function Meaning(h: seq<byte>): Action
    requires Complete(h)
  {
    if |h| == 1 then Header(h[0]) else Trail(Header(h[0]).cs, h[1..])
  }

  predicate Means(h: seq<byte>, a: Action) { Complete(h) && Meaning(h) == a }

  lemma {:induction false} RunHeader(stack: seq<Frame>, h: seq<byte>, a: Action, rest: seq<byte>)
    requires Means(h, a)
    ensures Run(At(stack), h + rest) == Resume(Act(stack, a), |h|, rest)
  {
    if |h| == 1 {
      assert h == [h[0]];
      RunByte(stack, h[0], rest);
    } else {
      RunAnnounced(stack, h, rest);
    }
  }

  lemma {:induction false} RunAnnounced(stack: seq<Frame>, h: seq<byte>, rest: seq<byte>)
    requires Complete(h) && |h| > 1
    ensures Run(At(stack), h + rest) == Resume(Act(stack, Meaning(h)), |h|, rest)
  {
    var b, f := h[0], h[1..];
    assert h + rest == [b] + (f + rest);
    RunByte(stack, b, f + rest);
    RunField(State(Header(b).cs, |f|, stack), f, rest);
    LaterLater(Act(stack, Meaning(h)), |f|, 1, rest);
  }

  lemma {:induction false} Announced(b: byte, cs: nat, f: seq<byte>, a: Action)
    requires |f| >= 1 && cs != CS_HEADER && Header(b) == Need(cs, |f|) && Trail(cs, f) == a
    ensures Means([b] + f, a)
  {
    assert ([b] + f)[1..] == f;
  }

  lemma {:induction false} UintMeans(u: nat)
    requires u < LIMIT64
    ensures Means(PackUint(u), Push(PosInt(u)))
  {
    if u < 0x80 {
      assert PackUint(u) == [u];
    } else if u < 0x1_0000 {
      ShortUintMeans(u);
    } else {
      LongUintMeans(u);
    }
  }

  lemma {:induction false} ShortUintMeans(u: nat)
    requires 0x80 <= u < 0x1_0000
    ensures Means(PackUint(u), Push(PosInt(u)))
  {
    PowersOf256();
    if u < 0x100 {
      LoadStore(u, 1);
      Announced(0xcc, 0x0c, Store(u, 1), Push(PosInt(u)));
    } else {
      LoadStore(u, 2);
      Announced(0xcd, 0x0d, Store(u, 2), Push(PosInt(u)));
    }
  }

  lemma {:induction false} LongUintMeans(u: nat)
    requires 0x1_0000 <= u < LIMIT64
    ensures Means(PackUint(u), Push(PosInt(u)))
  {
    PowersOf256();
    if u < LIMIT32 {
      LoadStore(u, 4);
      Announced(0xce, 0x0e, Store(u, 4), Push(PosInt(u)));
    } else {
      LoadStore(u, 8);
      Announced(0xcf, 0x0f, Store(u, 8), Push(PosInt(u)));
    }
  }

  lemma {:induction false} LoadSigned(i: int, w: nat)
    requires -1 * Pow256(w) <= 2 * i < 0
    ensures Integer(Signed(Load(Store(Unsigned(i, w), w)), w)) == NegInt(i)
  {
    LoadStore(Unsigned(i, w), w);
    SignedUnsigned(i, w);
  }

  lemma {:induction false} NegativeMeans(i: int)
    requires -LIMIT64 <= 2 * i < 0
    ensures Means(PackNegative(i), Push(NegInt(i)))
  {
    if i >= -0x20 {
      assert PackNegative(i) == [i + 0x100];
    } else if i >= -0x8000 {
      ShortNegativeMeans(i);
    } else {
      LongNegativeMeans(i);
    }
  }

  lemma {:induction false} ShortNegativeMeans(i: int)
    requires -0x8000 <= i < -0x20
    ensures Means(PackNegative(i), Push(NegInt(i)))
  {
    PowersOf256();
    if i >= -0x80 {
      LoadSigned(i, 1);
      Announced(0xd0, 0x10, Store(Unsigned(i, 1), 1), Push(NegInt(i)));
    } else {
      LoadSigned(i, 2);
      Announced(0xd1, 0x11, Store(Unsigned(i, 2), 2), Push(NegInt(i)));
    }
  }

  lemma {:induction false} LongNegativeMeans(i: int)
    requires -LIMIT64 <= 2 * i && i < -0x8000
    ensures Means(PackNegative(i), Push(NegInt(i)))
  {
    PowersOf256();
    if i >= -0x8000_0000 {
      LoadSigned(i, 4);
      Announced(0xd2, 0x12, Store(Unsigned(i, 4), 4), Push(NegInt(i)));
    } else {
      LoadSigned(i, 8);
      Announced(0xd3, 0x13, Store(Unsigned(i, 8), 8), Push(NegInt(i)));
    }
  }

  lemma {:induction false} FloatMeans(bits: nat)
    ensures bits < LIMIT32 ==> Means([0xca] + Store(bits, 4), Push(Float32(bits)))
    ensures bits < LIMIT64 ==> Means([0xcb] + Store(bits, 8), Push(Float64(bits)))
  {
    PowersOf256();
    if bits < LIMIT32 {
      LoadStore(bits, 4);
      Announced(0xca, 0x0a, Store(bits, 4), Push(Float32(bits)));
    }
    if bits < LIMIT64 {
      LoadStore(bits, 8);
      Announced(0xcb, 0x0b, Store(bits, 8), Push(Float64(bits)));
    }
  }

  lemma {:induction false} FixStrMeans(l: nat)
    requires l < 32
    ensures Means(StrHeader(l), Body(CS_STR_VALUE, l))
  {
    assert (0xa0 + l) % 32 == l;
  }

  lemma {:induction false} StrMeans(l: nat)
    requires l < LIMIT32
    ensures Means(StrHeader(l), Body(CS_STR_VALUE, l))
  {
    PowersOf256();
    if l < 32 {
      FixStrMeans(l);
    } else if l < 0x100 {
      LoadStore(l, 1);
      Announced(0xd9, 0x19, Store(l, 1), Need(CS_STR_VALUE, l));
    } else if l < 0x1_0000 {
      LoadStore(l, 2);
      Announced(0xda, 0x1a, Store(l, 2), Need(CS_STR_VALUE, l));
    } else {
      LoadStore(l, 4);
      Announced(0xdb, 0x1b, Store(l, 4), Need(CS_STR_VALUE, l));
    }
  }

  lemma {:induction false} BinMeans(l: nat)
    requires l < LIMIT32
    ensures Means(BinHeader(l), Body(CS_BIN_VALUE, l))
  {
    PowersOf256();
    if l < 0x100 {
      LoadStore(l, 1);
      Announced(0xc4, 0x04, Store(l, 1), Body(CS_BIN_VALUE, l));
    } else if l < 0x1_0000 {
      LoadStore(l, 2);
      Announced(0xc5, 0x05, Store(l, 2), Body(CS_BIN_VALUE, l));
    } else {
      LoadStore(l, 4);
      Announced(0xc6, 0x06, Store(l, 4), Body(CS_BIN_VALUE, l));
    }
  }

  lemma {:induction false} FixExtMeans(l: nat)
    requires l == 1 || l == 2 || l == 4 || l == 8 || l == 16
    ensures Means(ExtHeader(l), Body(CS_EXT_VALUE, (l + 1) % LIMIT32))
  {}

  /** An extension header: its type byte and body are read as one value of length one more,
      computed in 32 bits. */
  lemma {:induction false} ExtMeans(l: nat)
    requires l < LIMIT32
    ensures Means(ExtHeader(l), Body(CS_EXT_VALUE, (l + 1) % LIMIT32))
  {
    PowersOf256();
    var a := Body(CS_EXT_VALUE, (l + 1) % LIMIT32);
    if l == 1 || l == 2 || l == 4 || l == 8 || l == 16 {
      FixExtMeans(l);
    } else if l < 0x100 {
      LoadStore(l, 1);
      Announced(0xc7, 0x07, Store(l, 1), a);
    } else if l < 0x1_0000 {
      LoadStore(l, 2);
      Announced(0xc8, 0x08, Store(l, 2), a);
    } else {
      LoadStore(l, 4);
      Announced(0xc9, 0x09, Store(l, 4), a);
    }
  }

  lemma {:induction false} ArrMeans(n: nat)
    requires n < LIMIT32
    ensures Means(ArrHeader(n), Open(false, n))
  {
    PowersOf256();
    if 16 <= n < 0x1_0000 {
      LoadStore(n, 2);
      Announced(0xdc, 0x1c, Store(n, 2), Open(false, n));
    } else if 0x1_0000 <= n {
      LoadStore(n, 4);
      Announced(0xdd, 0x1d, Store(n, 4), Open(false, n));
    }
  }

  lemma {:induction false} MapMeans(n: nat)
    requires n < LIMIT32
    ensures Means(MapHeader(n), Open(true, n))
  {
    PowersOf256();
    if 16 <= n < 0x1_0000 {
      LoadStore(n, 2);
      Announced(0xde, 0x1e, Store(n, 2), Open(true, n));
    } else if 0x1_0000 <= n {
      LoadStore(n, 4);
      Announced(0xdf, 0x1f, Store(n, 4), Open(true, n));
    }
  }

  // ----- str, bin, ext

  /** A header `h` that announces a value `v`, and the value. */
  lemma {:induction false} ValueAfter(stack: seq<Frame>, h: seq<byte>, vs: nat, v: seq<byte>, rest: seq<byte>)
    requires |v| >= 1 && vs != CS_HEADER && Means(h, Need(vs, |v|))
    ensures Run(At(stack), (h + v) + rest) == Resume(Act(stack, Trail(vs, v)), |h| + |v|, rest)
  {
    assert (h + v) + rest == h + (v + rest);
    RunHeader(stack, h, Need(vs, |v|), v + rest);
    RunField(State(vs, |v|, stack), v, rest);
    LaterLater(Act(stack, Trail(vs, v)), |v|, |h|, rest);
  }

  lemma {:induction false} RunStr(stack: seq<Frame>, s: seq<byte>, rest: seq<byte>)
    requires |s| < LIMIT32
    ensures Run(At(stack), (StrHeader(|s|) + s) + rest) == Resume(PushObj(stack, Str(s)), |StrHeader(|s|) + s|, rest)
  {
    var h := StrHeader(|s|);
    StrMeans(|s|);
    if |s| == 0 {
      assert s == [] && h + s == h;
      RunHeader(stack, h, Push(Str([])), rest);
    } else {
      ValueAfter(stack, h, CS_STR_VALUE, s, rest);
    }
  }

  lemma {:induction false} RunBin(stack: seq<Frame>, s: seq<byte>, rest: seq<byte>)
    requires |s| < LIMIT32
    ensures Run(At(stack), (BinHeader(|s|) + s) + rest) == Resume(PushObj(stack, Bin(s)), |BinHeader(|s|) + s|, rest)
  {
    var h := BinHeader(|s|);
    BinMeans(|s|);
    if |s| == 0 {
      assert s == [] && h + s == h;
      RunHeader(stack, h, Push(Bin([])), rest);
    } else {
      ValueAfter(stack, h, CS_BIN_VALUE, s, rest);
    }
  }

  lemma {:induction false} TypeRoundTrip(t: int)
    requires -128 <= t < 128
    ensures TypeOf(TypeByte(t)) == t
  {}

  lemma {:induction false} RunExt(stack: seq<Frame>, t: int, s: seq<byte>, rest: seq<byte>)
    requires |s| < LIMIT32 && -128 <= t < 128
    ensures var p := ExtHeader(|s|) + ([TypeByte(t)] + s);
            var out := Run(At(stack), p + rest);
            if |s| + 1 == LIMIT32 then out.Failed? && out.err == ParseError
            else out == Resume(PushObj(stack, Ext(t, s)), |p|, rest)
  {
    TypeRoundTrip(t);
    var h, v := ExtHeader(|s|), [TypeByte(t)] + s;
    assert v[1..] == s;
    ExtMeans(|s|);
    ExtAfter(stack, h, v, rest);
  }

  /** A header `h` that announces type and body of an ext, computing their length in 32 bits. */
  lemma {:induction false} ExtAfter(stack: seq<Frame>, h: seq<byte>, v: seq<byte>, rest: seq<byte>)
    requires 1 <= |v| <= LIMIT32 && Means(h, Body(CS_EXT_VALUE, |v| % LIMIT32))
    ensures var out := Run(At(stack), (h + v) + rest);
            if |v| == LIMIT32 then out.Failed? && out.err == ParseError
            else out == Resume(PushObj(stack, Ext(TypeOf(v[0]), v[1..])), |h + v|, rest)
  {
    if |v| == LIMIT32 {
      ExtFails(stack, h, v, rest);
    } else {
      ExtBody(stack, h, v, rest);
    }
  }

  lemma {:induction false} ExtBody(stack: seq<Frame>, h: seq<byte>, v: seq<byte>, rest: seq<byte>)
    requires |v| >= 1 && Means(h, Need(CS_EXT_VALUE, |v|))
    ensures Run(At(stack), (h + v) + rest) == Resume(PushObj(stack, Ext(TypeOf(v[0]), v[1..])), |h + v|, rest)
  {
    ValueAfter(stack, h, CS_EXT_VALUE, v, rest);
  }

  lemma {:induction false} ExtFails(stack: seq<Frame>, h: seq<byte>, v: seq<byte>, rest: seq<byte>)
    requires Means(h, Fail(ParseError))
    ensures Run(At(stack), (h + v) + rest) == Failed(ParseError, |h| - 1)
  {
    assert (h + v) + rest == h + (v + rest);
    RunHeader(stack, h, Fail(ParseError), v + rest);
  }

  // ----- containers

  lemma {:induction false} PushItem(stack: seq<Frame>, xs: seq<Obj>, left: nat, o: Obj)
    ensures PushObj(stack + [Items(xs, left)], o) ==
            if left <= 1 then PushObj(stack, Arr(xs + [o])) else Next(At(stack + [Items(xs + [o], left - 1)]))
  {
    assert (stack + [Items(xs, left)])[..|stack|] == stack;
  }

  lemma {:induction false} PushEntry(stack: seq<Frame>, es: seq<Entry>, left: nat, k: Obj, v: Obj)
    ensures PushObj(stack + [Keys(es, left)], k) == Next(At(stack + [Vals(es, left, k)]))
    ensures PushObj(stack + [Vals(es, left, k)], v) ==
            if left <= 1 then PushObj(stack, Map(es + [Entry(k, v)]))
            else Next(At(stack + [Keys(es + [Entry(k, v)], left - 1)]))
  {
    assert (stack + [Keys(es, left)])[..|stack|] == stack;
    assert (stack + [Vals(es, left, k)])[..|stack|] == stack;
  }

  lemma {:induction false} EndsLater(
      out: Outcome, v: Verdict, stack: seq<Frame>, o: Obj, m: nat, n: nat, rest: seq<byte>)
    requires EndsAs(out, v, stack, o, n, rest)
    ensures EndsAs(Later(out, m), v, stack, o, m + n, rest)
  {
    if v == Fine { LaterLater(PushObj(stack, o), n, m, rest); }
  }

  /** The run goes on from `mid` after `n` bytes, or fails as judged. */
  predicate Leads(out: Outcome, v: Verdict, mid: State, n: nat, rest: seq<byte>) {
    match v
    case Fine => out == Later(Run(mid, rest), n)
    case Bad(e) => out.Failed? && out.err == e
  }

  /** An element `p` that leads to `mid`, then the rest `more` of the container. */
  lemma {:induction false} ThenMore(
      st: State, mid: State, v1: Verdict, v2: Verdict, p: seq<byte>, more: seq<byte>, stack: seq<Frame>, all: Obj,
      rest: seq<byte>)
    requires Leads(Run(st, p + (more + rest)), v1, mid, |p|, more + rest)
    requires v1 == Fine ==> EndsAs(Run(mid, more + rest), v2, stack, all, |more|, rest)
    ensures EndsAs(Run(st, (p + more) + rest), Both(v1, v2), stack, all, |p + more|, rest)
  {
    assert (p + more) + rest == p + (more + rest);
    if v1 == Fine { EndsLater(Run(mid, more + rest), v2, stack, all, |p|, |more|, rest); }
  }

  lemma {:induction false} LastItem(
      stack: seq<Frame>, have: seq<Obj>, x: Obj, n: nat, rest: seq<byte>, v: Verdict, out: Outcome)
    requires EndsAs(out, v, stack + [Items(have, 1)], x, n, rest)
    ensures EndsAs(out, v, stack, Arr(have + [x]), n, rest)
  {
    PushItem(stack, have, 1, x);
  }

  lemma {:induction false} LastEntry(
      stack: seq<Frame>, have: seq<Entry>, e: Entry, n: nat, rest: seq<byte>, v: Verdict, out: Outcome)
    requires EndsAs(out, v, stack + [Vals(have, 1, e.key)], e.val, n, rest)
    ensures EndsAs(out, v, stack, Map(have + [e]), n, rest)
  {
    PushEntry(stack, have, 1, e.key, e.val);
    assert Entry(e.key, e.val) == e;
  }

  lemma {:induction false} MoreEntry(
      stack: seq<Frame>, have: seq<Entry>, left: nat, e: Entry, n: nat, rest: seq<byte>, v: Verdict, out: Outcome)
    requires left > 1 && EndsAs(out, v, stack + [Vals(have, left, e.key)], e.val, n, rest)
    ensures Leads(out, v, At(stack + [Keys(have + [e], left - 1)]), n, rest)
  {
    PushEntry(stack, have, left, e.key, e.val);
    assert Entry(e.key, e.val) == e;
  }

  lemma {:induction false} MoreItem(
      stack: seq<Frame>, have: seq<Obj>, left: nat, x: Obj, n: nat, rest: seq<byte>, v: Verdict, out: Outcome)
    requires left > 1 && EndsAs(out, v, stack + [Items(have, left)], x, n, rest)
    ensures Leads(out, v, At(stack + [Items(have + [x], left - 1)]), n, rest)
  {
    PushItem(stack, have, left, x);
  }

  /** One item, then the other items. */
  lemma {:induction false} JoinItem(
      stack: seq<Frame>, have: seq<Obj>, left: nat, x: Obj, p: seq<byte>, more: seq<byte>, v1: Verdict, v2: Verdict,
      all: Obj, rest: seq<byte>)
    requires left > 1
    requires EndsAs(Run(At(stack + [Items(have, left)]), p + (more + rest)), v1, stack + [Items(have, left)], x, |p|,
        more + rest)
    requires EndsAs(Run(At(stack + [Items(have + [x], left - 1)]), more + rest), v2, stack, all, |more|, rest)
    ensures EndsAs(Run(At(stack + [Items(have, left)]), (p + more) + rest), Both(v1, v2), stack, all, |p + more|, rest)
  {
    var st, mid := At(stack + [Items(have, left)]), At(stack + [Items(have + [x], left - 1)]);
    MoreItem(stack, have, left, x, |p|, more + rest, v1, Run(st, p + (more + rest)));
    ThenMore(st, mid, v1, v2, p, more, stack, all, rest);
  }

  /** One entry, then the other entries. */
  lemma {:induction false} JoinEntry(
      stack: seq<Frame>, have: seq<Entry>, left: nat, e: Entry, p: seq<byte>, more: seq<byte>, v1: Verdict,
      v2: Verdict, all: Obj, rest: seq<byte>)
    requires left > 1
    requires EndsAs(Run(At(stack + [Keys(have, left)]), p + (more + rest)), v1, stack + [Vals(have, left, e.key)],
        e.val, |p|, more + rest)
    requires EndsAs(Run(At(stack + [Keys(have + [e], left - 1)]), more + rest), v2, stack, all, |more|, rest)
    ensures EndsAs(Run(At(stack + [Keys(have, left)]), (p + more) + rest), Both(v1, v2), stack, all, |p + more|, rest)
  {
    var st, mid := At(stack + [Keys(have, left)]), At(stack + [Keys(have + [e], left - 1)]);
    MoreEntry(stack, have, left, e, |p|, more + rest, v1, Run(st, p + (more + rest)));
    ThenMore(st, mid, v1, v2, p, more, stack, all, rest);
  }

  function NewFrame(isMap: bool, n: nat): Frame { if isMap then Keys([], n) else Items([], n) }

  /** A container header `h`, then its elements `p`. */
  lemma {:induction false} Opened(
      stack: seq<Frame>, isMap: bool, n: nat, h: seq<byte>, p: seq<byte>, v: Verdict, o: Obj, rest: seq<byte>)
    requires |h| >= 1 && Run(At(stack), h + (p + rest)) == Resume(OpenContainer(stack, isMap, n), |h|, p + rest)
    requires if n == 0 then p == [] && v == Fine && o == (if isMap then Map([]) else Arr([]))
             else EndsAs(Run(At(stack + [NewFrame(isMap, n)]), p + rest), v, stack, o, |p|, rest)
    ensures EndsAs(Run(At(stack), (h + p) + rest),
                   if |stack| >= STACK_SIZE || !SizeFits(isMap, n) then Bad(NoMem) else v,
                   stack, o, |h + p|, rest)
  {
    assert (h + p) + rest == h + (p + rest);
    if n == 0 {
      assert p + rest == rest;
    } else {
      EndsLater(Run(At(stack + [NewFrame(isMap, n)]), p + rest), v, stack, o, |h|, |p|, rest);
    }
  }

  /** Decoding the encoding of any object, in any context and followed by anything. */
  lemma {:induction false} RunPack(stack: seq<Frame>, o: Obj, rest: seq<byte>)
    requires WellFormed(o)
    ensures PackEnds(stack, o, rest)
    decreases o, 1
  {
    match o
    case Nil => RunHeader(stack, [0xc0], Push(o), rest);
    case Bool(b) => RunHeader(stack, if b then [0xc3] else [0xc2], Push(o), rest);
    case PosInt(u) => UintMeans(u); RunHeader(stack, PackUint(u), Push(o), rest);
    case NegInt(i) => NegativeMeans(i); RunHeader(stack, PackNegative(i), Push(o), rest);
    case Float32(b) => FloatMeans(b); RunHeader(stack, [0xca] + Store(b, 4), Push(o), rest);
    case Float64(b) => FloatMeans(b); RunHeader(stack, [0xcb] + Store(b, 8), Push(o), rest);
    case Str(s) => RunStr(stack, s, rest);
    case Bin(s) => RunBin(stack, s, rest);
    case Ext(t, s) => RunExt(stack, t, s, rest);
    case Arr(xs) => RunArr(stack, xs, rest);
    case Map(es) => RunMap(stack, es, rest);
  }

  lemma {:induction false} RunArr(stack: seq<Frame>, xs: seq<Obj>, rest: seq<byte>)
    requires WellFormed(Arr(xs))
    ensures EndsAs(Run(At(stack), Pack(Arr(xs)) + rest), Judge(Arr(xs), |stack|), stack, Arr(xs), |Pack(Arr(xs))|, rest)
    decreases xs, 1
  {
    var h, p := ArrHeader(|xs|), PackItems(xs);
    ArrMeans(|xs|);
    RunHeader(stack, h, Open(false, |xs|), p + rest);
    if xs != [] {
      RunItems(stack, [], xs, rest);
      assert [] + xs == xs;
    }
    Opened(stack, false, |xs|, h, p, JudgeItems(xs, |stack| + 1), Arr(xs), rest);
  }

  lemma {:induction false} OneItem(x: Obj, xs: seq<Obj>, depth: nat)
    requires xs == [x] && WellFormed(x)
    ensures PackItems(xs) == Pack(x) && JudgeItems(xs, depth) == Judge(x, depth)
  {
    var tail := xs[1..];
    assert PackItems(tail) == [] && JudgeItems(tail, depth) == Fine;
  }

  lemma {:induction false} OneEntry(e: Entry, es: seq<Entry>, depth: nat)
    requires es == [e] && WellFormed(e.key) && WellFormed(e.val)
    ensures PackEntries(es) == PackEntry(e) && JudgeEntries(es, depth) == JudgeEntry(e, depth)
  {
    var tail := es[1..];
    assert PackEntries(tail) == [] && JudgeEntries(tail, depth) == Fine;
  }

  /** The run over the items of an array ends as judged. */
  ghost predicate ItemsEnd(stack: seq<Frame>, have: seq<Obj>, xs: seq<Obj>, rest: seq<byte>)
    requires forall k :: 0 <= k < |xs| ==> WellFormed(xs[k])
  {
    EndsAs(Run(At(stack + [Items(have, |xs|)]), PackItems(xs) + rest), JudgeItems(xs, |stack| + 1),
           stack, Arr(have + xs), |PackItems(xs)|, rest)
  }

  lemma {:induction false} RunItems(stack: seq<Frame>, have: seq<Obj>, xs: seq<Obj>, rest: seq<byte>)
    requires xs != [] && forall k :: 0 <= k < |xs| ==> WellFormed(xs[k])
    ensures ItemsEnd(stack, have, xs, rest)
    decreases xs, 0
  {
    var x, tail := xs[0], xs[1..];
    if tail == [] {
      RunPack(stack + [Items(have, 1)], x, rest);
      ItemsLast(stack, have, x, xs, rest);
    } else {
      RunPack(stack + [Items(have, |xs|)], x, PackItems(tail) + rest);
      RunItems(stack, have + [x], tail, rest);
      ItemsMore(stack, have, x, tail, xs, rest);
    }
  }

  /** The run over one object ends as judged. */
  ghost predicate PackEnds(stack: seq<Frame>, o: Obj, rest: seq<byte>)
    requires WellFormed(o)
  {
    EndsAs(Run(At(stack), Pack(o) + rest), Judge(o, |stack|), stack, o, |Pack(o)|, rest)
  }

  lemma {:induction false} ItemsLast(stack: seq<Frame>, have: seq<Obj>, x: Obj, xs: seq<Obj>, rest: seq<byte>)
    requires WellFormed(x) && xs == [x] && PackEnds(stack + [Items(have, 1)], x, rest)
    ensures ItemsEnd(stack, have, xs, rest)
  {
    LastItem(stack, have, x, |Pack(x)|, rest, Judge(x, |stack| + 1), Run(At(stack + [Items(have, 1)]), Pack(x) + rest));
    OneItem(x, xs, |stack| + 1);
  }

  lemma {:induction false} ItemsMore(
      stack: seq<Frame>, have: seq<Obj>, x: Obj, tail: seq<Obj>, xs: seq<Obj>, rest: seq<byte>)
    requires forall k :: 0 <= k < |xs| ==> WellFormed(xs[k])
    requires tail != [] && xs == [x] + tail && x == xs[0] && tail == xs[1..]
    requires PackEnds(stack + [Items(have, |xs|)], x, PackItems(tail) + rest) && ItemsEnd(stack, have + [x], tail, rest)
    ensures ItemsEnd(stack, have, xs, rest)
  {
    assert (have + [x]) + tail == have + xs;
    JoinItem(stack, have, |xs|, x, Pack(x), PackItems(tail), Judge(x, |stack| + 1), JudgeItems(tail, |stack| + 1),
        Arr(have + xs), rest);
  }

  lemma {:induction false} RunMap(stack: seq<Frame>, es: seq<Entry>, rest: seq<byte>)
    requires WellFormed(Map(es))
    ensures EndsAs(Run(At(stack), Pack(Map(es)) + rest), Judge(Map(es), |stack|), stack, Map(es), |Pack(Map(es))|, rest)
    decreases es, 1
  {
    var h, p := MapHeader(|es|), PackEntries(es);
    MapMeans(|es|);
    RunHeader(stack, h, Open(true, |es|), p + rest);
    if es != [] {
      RunEntries(stack, [], es, rest);
      assert [] + es == es;
    }
    Opened(stack, true, |es|, h, p, JudgeEntries(es, |stack| + 1), Map(es), rest);
  }

  lemma {:induction false} RunEntry(stack: seq<Frame>, have: seq<Entry>, left: nat, e: Entry, rest: seq<byte>)
    requires WellFormed(e.key) && WellFormed(e.val)
    ensures EntryEnds(stack, have, left, e, rest)
    decreases e, 0
  {
    var keys, vals := stack + [Keys(have, left)], stack + [Vals(have, left, e.key)];
    RunPack(keys, e.key, Pack(e.val) + rest);
    PushEntry(stack, have, left, e.key, e.val);
    RunPack(vals, e.val, rest);
    ThenMore(At(keys), At(vals), Judge(e.key, |stack| + 1), Judge(e.val, |stack| + 1), Pack(e.key), Pack(e.val), vals,
        e.val, rest);
  }

  lemma {:induction false} RunEntries(stack: seq<Frame>, have: seq<Entry>, es: seq<Entry>, rest: seq<byte>)
    requires es != [] && forall k :: 0 <= k < |es| ==> WellFormed(es[k].key) && WellFormed(es[k].val)
    ensures EntriesEnd(stack, have, es, rest)
    decreases es, 0
  {
    var e, tail := es[0], es[1..];
    if tail == [] {
      RunEntry(stack, have, 1, e, rest);
      EntriesLast(stack, have, e, es, rest);
    } else {
      RunEntry(stack, have, |es|, e, PackEntries(tail) + rest);
      RunEntries(stack, have + [e], tail, rest);
      EntriesMore(stack, have, e, tail, es, rest);
    }
  }

  /** The run over the entries of a map ends as judged. */
  ghost predicate EntriesEnd(stack: seq<Frame>, have: seq<Entry>, es: seq<Entry>, rest: seq<byte>)
    requires forall k :: 0 <= k < |es| ==> WellFormed(es[k].key) && WellFormed(es[k].val)
  {
    EndsAs(Run(At(stack + [Keys(have, |es|)]), PackEntries(es) + rest), JudgeEntries(es, |stack| + 1),
           stack, Map(have + es), |PackEntries(es)|, rest)
  }

  /** The run over one entry ends as judged. */
  ghost predicate EntryEnds(stack: seq<Frame>, have: seq<Entry>, left: nat, e: Entry, rest: seq<byte>)
    requires WellFormed(e.key) && WellFormed(e.val)
  {
    EndsAs(Run(At(stack + [Keys(have, left)]), PackEntry(e) + rest), JudgeEntry(e, |stack| + 1),
           stack + [Vals(have, left, e.key)], e.val, |PackEntry(e)|, rest)
  }

  lemma {:induction false} EntriesLast(stack: seq<Frame>, have: seq<Entry>, e: Entry, es: seq<Entry>, rest: seq<byte>)
    requires WellFormed(e.key) && WellFormed(e.val) && es == [e] && EntryEnds(stack, have, 1, e, rest)
    ensures EntriesEnd(stack, have, es, rest)
  {
    LastEntry(stack, have, e, |PackEntry(e)|, rest, JudgeEntry(e, |stack| + 1),
        Run(At(stack + [Keys(have, 1)]), PackEntry(e) + rest));
    OneEntry(e, es, |stack| + 1);
  }

  lemma {:induction false} EntriesMore(
      stack: seq<Frame>, have: seq<Entry>, e: Entry, tail: seq<Entry>, es: seq<Entry>, rest: seq<byte>)
    requires forall k :: 0 <= k < |es| ==> WellFormed(es[k].key) && WellFormed(es[k].val)
    requires tail != [] && es == [e] + tail && e == es[0] && tail == es[1..]
    requires EntryEnds(stack, have, |es|, e, PackEntries(tail) + rest) && EntriesEnd(stack, have + [e], tail, rest)
    ensures EntriesEnd(stack, have, es, rest)
  {
    assert (have + [e]) + tail == have + es;
    JoinEntry(stack, have, |es|, e, PackEntry(e), PackEntries(tail), JudgeEntry(e, |stack| + 1),
        JudgeEntries(tail, |stack| + 1), Map(have + es), rest);
  }

  // ----- which objects survive

  function Max(a: nat, b: nat): nat { if a < b then b else a }

  /** Container nesting, through keys and values. */
  function Nesting(o: Obj): nat
    decreases o, 1
  {
    match o
    case Arr(xs) => 1 + NestingItems(xs)
    case Map(es) => 1 + NestingEntries(es)
    case _ => 0
  }

  function NestingItems(xs: seq<Obj>): nat
    decreases xs, 0
  {
    if xs == [] then 0 else Max(Nesting(xs[0]), NestingItems(xs[1..]))
  }

  function NestingEntry(e: Entry): nat
    decreases e, 0
  {
    Max(Nesting(e.key), Nesting(e.val))
  }

  function NestingEntries(es: seq<Entry>): nat
    decreases es, 0
  {
    if es == [] then 0 else Max(NestingEntry(es[0]), NestingEntries(es[1..]))
  }

  /** Every size is within the decoder's 32-bit arithmetic. */
  predicate SizesFit(o: Obj)
    decreases o, 1
  {
    match o
    case Ext(_, s) => |s| < LIMIT32 - 1
    case Arr(xs) => |xs| * OBJECT_SIZE < LIMIT32 && forall k :: 0 <= k < |xs| ==> SizesFit(xs[k])
    case Map(es) => |es| * ENTRY_SIZE < LIMIT32 && forall k :: 0 <= k < |es| ==> EntryFits(es[k])
    case _ => true
  }

  predicate EntryFits(e: Entry)
    decreases e, 0
  {
    SizesFit(e.key) && SizesFit(e.val)
  }

  /** The callbacks' overflow test is exact. */
  lemma {:induction false} SizeFitsExactly(isMap: bool, n: nat)
    ensures SizeFits(isMap, n) <==> n * (if isMap then ENTRY_SIZE else OBJECT_SIZE) < LIMIT32
  {}

  /** `v` accepts exactly when the sizes are right and the nesting fits; and when the sizes
      are right it can only complain about memory. */
  predicate Exact(v: Verdict, nesting: nat, sizes: bool, depth: nat) {
    && (v == Fine <==> depth + nesting <= STACK_SIZE && sizes)
    && (sizes ==> v == Fine || v == Bad(NoMem))
  }

  lemma {:induction false} JudgeExact(o: Obj, depth: nat)
    requires WellFormed(o) && depth <= STACK_SIZE
    ensures Exact(Judge(o, depth), Nesting(o), SizesFit(o), depth)
    decreases o, 1
  {
    if o.Arr? {
      JudgeArrExact(o.items, depth);
    } else if o.Map? {
      JudgeMapExact(o.entries, depth);
    }
  }

  lemma {:induction false} JudgeArrExact(xs: seq<Obj>, depth: nat)
    requires WellFormed(Arr(xs)) && depth <= STACK_SIZE
    ensures Exact(Judge(Arr(xs), depth), Nesting(Arr(xs)), SizesFit(Arr(xs)), depth)
    decreases xs, 1
  {
    SizeFitsExactly(false, |xs|);
    if depth < STACK_SIZE { JudgeItemsExact(xs, depth + 1); }
  }

  lemma {:induction false} JudgeMapExact(es: seq<Entry>, depth: nat)
    requires WellFormed(Map(es)) && depth <= STACK_SIZE
    ensures Exact(Judge(Map(es), depth), Nesting(Map(es)), SizesFit(Map(es)), depth)
    decreases es, 1
  {
    SizeFitsExactly(true, |es|);
    if depth < STACK_SIZE { JudgeEntriesExact(es, depth + 1); }
  }

  lemma {:induction false} JudgeItemsExact(xs: seq<Obj>, depth: nat)
    requires depth <= STACK_SIZE && forall k :: 0 <= k < |xs| ==> WellFormed(xs[k])
    ensures Exact(JudgeItems(xs, depth), NestingItems(xs), forall k :: 0 <= k < |xs| ==> SizesFit(xs[k]), depth)
    decreases xs, 0
  {
    if xs != [] {
      var tail := xs[1..];
      JudgeExact(xs[0], depth);
      JudgeItemsExact(tail, depth);
      assert forall k :: 1 <= k < |xs| ==> xs[k] == tail[k - 1];
      assert (forall k :: 0 <= k < |xs| ==> SizesFit(xs[k])) <==>
               SizesFit(xs[0]) && forall k :: 0 <= k < |tail| ==> SizesFit(tail[k]);
    }
  }

  lemma {:induction false} JudgeEntryExact(e: Entry, depth: nat)
    requires depth <= STACK_SIZE && WellFormed(e.key) && WellFormed(e.val)
    ensures Exact(JudgeEntry(e, depth), NestingEntry(e), EntryFits(e), depth)
    decreases e, 0
  {
    JudgeExact(e.key, depth);
    JudgeExact(e.val, depth);
  }

  lemma {:induction false} JudgeEntriesExact(es: seq<Entry>, depth: nat)
    requires depth <= STACK_SIZE && forall k :: 0 <= k < |es| ==> WellFormed(es[k].key) && WellFormed(es[k].val)
    ensures Exact(JudgeEntries(es, depth), NestingEntries(es), forall k :: 0 <= k < |es| ==> EntryFits(es[k]), depth)
    decreases es, 0
  {
    if es != [] {
      var tail := es[1..];
      JudgeEntryExact(es[0], depth);
      JudgeEntriesExact(tail, depth);
      assert forall k :: 1 <= k < |es| ==> es[k] == tail[k - 1];
      assert (forall k :: 0 <= k < |es| ==> EntryFits(es[k])) <==>
               EntryFits(es[0]) && forall k :: 0 <= k < |tail| ==> EntryFits(tail[k]);
    }
  }

  predicate Decodable(o: Obj) { Nesting(o) <= STACK_SIZE && SizesFit(o) }

  /** The round trip, exactly: followed by anything, the encoding of an object decodes to
      that object and consumes exactly its bytes if and only if the object is decodable; and
      nesting that is too deep is answered by NoMem. */
  lemma {:induction false} RoundTrip(o: Obj, rest: seq<byte>)
    requires WellFormed(o)
    ensures if Decodable(o) then Run(START, Pack(o) + rest) == Done(o, |Pack(o)|)
        else Run(START, Pack(o) + rest).Failed?
    ensures SizesFit(o) && Nesting(o) > STACK_SIZE ==> Run(START, Pack(o) + rest).err == NoMem
  {
    RunPack([], o, rest);
    JudgeExact(o, 0);
  }

  /** The encoding is injective and prefix-free. */
  lemma {:induction false} PrefixFree(a: Obj, b: Obj, r: seq<byte>, s: seq<byte>)
    requires WellFormed(a) && WellFormed(b) && Decodable(a) && Decodable(b)
    requires Pack(a) + r == Pack(b) + s
    ensures a == b && r == s
  {
    RoundTrip(a, r);
    RoundTrip(b, s);
    assert r == (Pack(a) + r)[|Pack(a)|..] && s == (Pack(b) + s)[|Pack(b)|..];
  }
}
