/** The streaming unpacker (unpack.c) as seen by its user: bytes arrive in chunks, and after
    each chunk msgpack_unpacker_next_with_size is called until it stops succeeding. */
module MsgStream {
  import opened MsgObject
  import opened MsgDecoder
  import opened MsgRoundTrip

  /** An unpacker that can go on: decoder state, bytes not consumed yet, bytes consumed for the
      object in progress. Or one that answered an error. */
  datatype Stream = Live(st: State, bytes: seq<byte>, parsed: nat) | Broken(err: Error)

  datatype Report = Report(obj: Obj, size: nat)

  datatype Answer = Answer(reports: seq<Report>, after: Stream)

  const EMPTY := Live(START, [], 0)

  /** Call msgpack_unpacker_next_with_size until it stops succeeding. */
  function Drain(st: State, bs: seq<byte>, parsed: nat): Answer
    decreases |bs|
  {
    RunBounded(st, bs);
    match Run(st, bs)
    case Paused(st', u) => Answer([], Live(st', bs[u..], parsed + u))
    case Done(o, u) =>
      var more := Drain(START, bs[u..], 0);
      Cons(Report(o, parsed + u), more)
    case Failed(e, _) => Answer([], Broken(e))
  }

  function Cons(r: Report, a: Answer): Answer { Answer([r] + a.reports, a.after) }

  function Feed(s: Stream, chunk: seq<byte>): Answer {
    if s.Live? then Drain(s.st, s.bytes + chunk, s.parsed) else Answer([], s)
  }

  /** Feed the chunks one by one. */
  function Deliver(s: Stream, chunks: seq<seq<byte>>): Answer
    decreases |chunks|
  {
    if chunks == [] then Answer([], s)
    else
      var first := Feed(s, chunks[0]);
      var more := Deliver(first.after, chunks[1..]);
      Answer(first.reports + more.reports, more.after)
  }

  function Concat(chunks: seq<seq<byte>>): seq<byte> {
    if chunks == [] then [] else chunks[0] + Concat(chunks[1..])
  }

  /** Nothing can be decoded until more bytes arrive. */
  predicate Settled(s: Stream) { s.Live? ==> Run(s.st, s.bytes) == Paused(s.st, 0) }

  // ----- draining in two parts

  lemma {:induction false} PausedSettles(st: State, bs: seq<byte>)
    requires Run(st, bs).Paused?
    ensures Run(st, bs).used <= |bs|
    ensures Settled(Live(Run(st, bs).st, bs[Run(st, bs).used..], 0))
  {
    RunSplit(st, bs, []);
    var u := Run(st, bs).used;
    assert bs + [] == bs && bs[u..] + [] == bs[u..];
  }

  lemma {:induction false} DrainSettles(st: State, bs: seq<byte>, parsed: nat)
    ensures Settled(Drain(st, bs, parsed).after)
    decreases |bs|
  {
    RunBounded(st, bs);
    var r := Run(st, bs);
    if r.Paused? {
      PausedSettles(st, bs);
    } else if r.Done? {
      DrainSettles(START, bs[r.used..], 0);
    }
  }

  /** Resuming a paused run: the same reports, the consumed bytes moved into `parsed`. */
  lemma {:induction false} DrainResume(st: State, xs: seq<byte>, st': State, ys: seq<byte>, u: nat, parsed: nat)
    requires u <= |xs| && ys == xs[u..] && Run(st, xs) == Later(Run(st', ys), u)
    ensures Drain(st, xs, parsed) == Drain(st', ys, parsed + u)
  {
    RunBounded(st', ys);
    var r := Run(st', ys);
    assert xs[u + r.used..] == ys[r.used..];
    if r.Paused? {
      DrainPaused(st, xs, parsed);
      DrainPaused(st', ys, parsed + u);
    } else if r.Done? {
      DrainDone(st, xs, r.obj, u + r.used, ys[r.used..], parsed);
      DrainDone(st', ys, r.obj, r.used, ys[r.used..], parsed + u);
    } else {
      DrainFailed(st, xs, parsed);
      DrainFailed(st', ys, parsed + u);
    }
  }

  function Then(first: Answer, b: seq<byte>): Answer {
    if first.after.Live? then
      var more := Drain(first.after.st, first.after.bytes + b, first.after.parsed);
      Answer(first.reports + more.reports, more.after)
    else first
  }

  lemma {:induction false} DrainDone(st: State, bs: seq<byte>, o: Obj, u: nat, tail: seq<byte>, parsed: nat)
    requires Run(st, bs) == Done(o, u) && u <= |bs| && tail == bs[u..]
    ensures Drain(st, bs, parsed) == Cons(Report(o, parsed + u), Drain(START, tail, 0))
  {}

  lemma {:induction false} DrainFailed(st: State, bs: seq<byte>, parsed: nat)
    requires Run(st, bs).Failed?
    ensures Drain(st, bs, parsed) == Answer([], Broken(Run(st, bs).err))
  {}

  lemma {:induction false} DrainPaused(st: State, bs: seq<byte>, parsed: nat)
    requires Run(st, bs).Paused? && Run(st, bs).used <= |bs|
    ensures Drain(st, bs, parsed) == Answer([], Live(Run(st, bs).st, bs[Run(st, bs).used..], parsed + Run(st, bs).used))
  {}

  lemma {:induction false} SplitPaused(
      st: State, a: seq<byte>, b: seq<byte>, st': State, u: nat, tail: seq<byte>, parsed: nat)
    requires Run(st, a) == Paused(st', u) && u <= |a| && tail == a[u..]
        && Run(st, a + b) == Later(Run(st', tail + b), u)
    ensures Drain(st, a + b, parsed) == Then(Drain(st, a, parsed), b)
  {
    assert (a + b)[u..] == tail + b;
    DrainResume(st, a + b, st', tail + b, u, parsed);
    PausedThen(st, a, b, st', u, tail, parsed);
  }

  lemma {:induction false} PausedThen(
      st: State, a: seq<byte>, b: seq<byte>, st': State, u: nat, tail: seq<byte>, parsed: nat)
    requires Run(st, a) == Paused(st', u) && u <= |a| && tail == a[u..]
    ensures Then(Drain(st, a, parsed), b) == Drain(st', tail + b, parsed + u)
  {
    DrainPaused(st, a, parsed);
    EmptyThen(Live(st', tail, parsed + u), b);
  }

  lemma {:induction false} SplitDone(
      st: State, a: seq<byte>, b: seq<byte>, o: Obj, u: nat, tail: seq<byte>, parsed: nat)
    requires Run(st, a) == Done(o, u) && Run(st, a + b) == Done(o, u) && u <= |a| && tail == a[u..]
    requires Drain(START, tail + b, 0) == Then(Drain(START, tail, 0), b)
    ensures Drain(st, a + b, parsed) == Then(Drain(st, a, parsed), b)
  {
    assert (a + b)[u..] == tail + b;
    DrainDone(st, a, o, u, tail, parsed);
    DrainDone(st, a + b, o, u, tail + b, parsed);
    ConsThen(Report(o, parsed + u), Drain(START, tail, 0), b);
  }

  lemma {:induction false} DrainSplit(st: State, a: seq<byte>, b: seq<byte>, parsed: nat)
    ensures Drain(st, a + b, parsed) == Then(Drain(st, a, parsed), b)
    decreases |a|
  {
    RunBounded(st, a);
    RunSplit(st, a, b);
    var r := Run(st, a);
    if r.Paused? {
      SplitPaused(st, a, b, r.st, r.used, a[r.used..], parsed);
    } else if r.Done? {
      DrainSplit(START, a[r.used..], b, 0);
      SplitDone(st, a, b, r.obj, r.used, a[r.used..], parsed);
    } else {
      DrainFailed(st, a, parsed);
      DrainFailed(st, a + b, parsed);
    }
  }

  lemma {:induction false} EmptyThen(s: Stream, b: seq<byte>)
    requires s.Live?
    ensures Then(Answer([], s), b) == Drain(s.st, s.bytes + b, s.parsed)
  {}

  lemma {:induction false} ConsThen(x: Report, ans: Answer, b: seq<byte>)
    ensures Then(Cons(x, ans), b) == Cons(x, Then(ans, b))
  {
    if ans.after.Live? {
      var more := Drain(ans.after.st, ans.after.bytes + b, ans.after.parsed);
      assert ([x] + ans.reports) + more.reports == [x] + (ans.reports + more.reports);
    }
  }

  // ----- how the bytes are cut does not matter

  /** Whatever the bytes are: delivering them chunk by chunk gives the reports and the final
      state of one uninterrupted run over all of them. */
  lemma {:induction false} ChunksDontMatter(s: Stream, chunks: seq<seq<byte>>)
    requires Settled(s)
    ensures Deliver(s, chunks) == Feed(s, Concat(chunks))
    decreases |chunks|
  {
    if chunks == [] {
      if s.Live? { assert s.bytes + [] == s.bytes; }
    } else {
      var c, rest := chunks[0], Concat(chunks[1..]);
      var first := Feed(s, c);
      if s.Live? {
        DrainSettles(s.st, s.bytes + c, s.parsed);
        DrainSplit(s.st, s.bytes + c, rest, s.parsed);
        assert (s.bytes + c) + rest == s.bytes + (c + rest);
      }
      ChunksDontMatter(first.after, chunks[1..]);
      assert first.after.Broken? ==> first.reports + [] == first.reports;
    }
  }

  function Reports(objs: seq<Obj>): seq<Report>
    requires forall k :: 0 <= k < |objs| ==> WellFormed(objs[k])
  {
    if objs == [] then [] else [Report(objs[0], |Pack(objs[0])|)] + Reports(objs[1..])
  }

  lemma {:induction false} DrainObjects(objs: seq<Obj>)
    requires forall k :: 0 <= k < |objs| ==> WellFormed(objs[k]) && Decodable(objs[k])
    ensures Drain(START, PackItems(objs), 0) == Answer(Reports(objs), EMPTY)
  {
    if objs != [] {
      var p, rest := Pack(objs[0]), PackItems(objs[1..]);
      RoundTrip(objs[0], rest);
      assert (p + rest)[|p|..] == rest;
      DrainObjects(objs[1..]);
    }
  }

  /** For every list of objects and every way of cutting their concatenated encoding into
      chunks, exactly these objects come out, in order, each with the size of its encoding,
      and the unpacker is left as new. */
  lemma {:induction false} StreamRoundTrip(objs: seq<Obj>, chunks: seq<seq<byte>>)
    requires forall k :: 0 <= k < |objs| ==> WellFormed(objs[k]) && Decodable(objs[k])
    requires Concat(chunks) == PackItems(objs)
    ensures Deliver(EMPTY, chunks) == Answer(Reports(objs), EMPTY)
  {
    ChunksDontMatter(EMPTY, chunks);
    assert [] + Concat(chunks) == PackItems(objs);
    DrainObjects(objs);
  }

  lemma {:induction false} ReportsAt(objs: seq<Obj>, k: nat)
    requires forall k :: 0 <= k < |objs| ==> WellFormed(objs[k])
    requires k < |objs|
    ensures |Reports(objs)| == |objs| && Reports(objs)[k] == Report(objs[k], |Pack(objs[k])|)
    decreases |objs|
  {
    if k > 0 {
      ReportsAt(objs[1..], k - 1);
    } else if |objs| > 1 {
      ReportsAt(objs[1..], 0);
    }
  }

  // ----- sizes

  function Total(rs: seq<Report>): nat { if rs == [] then 0 else rs[0].size + Total(rs[1..]) }

  lemma {:induction false} TotalAppend(a: seq<Report>, b: seq<Report>)
    ensures Total(a + b) == Total(a) + Total(b)
  {
    if a == [] {
      assert a + b == b;
    } else {
      assert (a + b)[1..] == a[1..] + b;
      TotalAppend(a[1..], b);
    }
  }

  lemma {:induction false} DrainConserves(st: State, bs: seq<byte>, parsed: nat)
    ensures var a := Drain(st, bs, parsed);
            a.after.Live? ==> Total(a.reports) + a.after.parsed + |a.after.bytes| == parsed + |bs|
    decreases |bs|
  {
    RunBounded(st, bs);
    var r := Run(st, bs);
    if r.Done? {
      DrainConserves(START, bs[r.used..], 0);
      var a := Drain(START, bs[r.used..], 0);
      TotalAppend([Report(r.obj, parsed + r.used)], a.reports);
    }
  }

  /** The reported sizes, the bytes of the object in progress and the bytes still waiting add
      up to what was delivered. */
  lemma {:induction false} SizesConserved(chunks: seq<seq<byte>>)
    ensures var a := Deliver(EMPTY, chunks);
            a.after.Live? ==> Total(a.reports) + a.after.parsed + |a.after.bytes| == |Concat(chunks)|
  {
    ChunksDontMatter(EMPTY, chunks);
    DrainConserves(START, [] + Concat(chunks), 0);
  }
}
