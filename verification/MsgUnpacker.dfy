/** The streaming unpacker: a decoding context over counted buffers (unpack.c, unpack.h). */
module MsgUnpacker {
  import opened MsgObject
  import opened MsgDecoder
  import opened MsgPayloads
  import opened MsgExecutor
  import opened MsgBuffers
  import Stream = MsgStream

  /** What a list of views reads. */
  function Contents(vs: seq<View>): (r: seq<seq<byte>>)
    ensures |r| == |vs|
  {
    seq(|vs|, i requires 0 <= i < |vs| => vs[i].bytes)
  }

  lemma {:induction false} ContentsAppend(a: seq<View>, b: seq<View>)
    ensures Contents(a + b) == Contents(a) + Contents(b)
  {}

  lemma {:induction false} NewContents(zone: nat, buffer: nat, off: nat, pending: seq<byte>, spans: seq<Span>)
    requires Inside(spans, |pending|)
    ensures Contents(NewViews(zone, buffer, off, pending, spans)) == Read(pending, spans)
  {}

  class Unpacker {
    const buffers: Buffers
    const ctx: Context
    var parsed: nat
    var broken: bool                 // an error was returned
    ghost var partial: seq<View>     // the views of the object in progress, in order

    /** The payloads of the object in progress are what its views, all alive, read. */
    ghost predicate Valid()
      reads this, buffers, ctx, ctx.stack
    {
      && buffers.Valid() && ctx.Valid()
      && (!broken ==> Contents(partial) == StackPayloads(ctx.Abs().stack))
      && (forall v :: v in partial ==> v in buffers.views && v.zone == buffers.zone)
    }

    /** The stream this unpacker stands for. */
    ghost function Abs(): Stream.Stream
      reads this, buffers, ctx, ctx.stack
      requires Valid() && !broken
    {
      Stream.Live(ctx.Abs(), buffers.Pending(), parsed)
    }

    /** msgpack_unpacker_init. */
    constructor (initialSize: nat)
      requires initialSize <= LARGEST_BLOCK
      ensures Valid() && !broken && Abs() == Stream.EMPTY && buffers.views == {}
      ensures fresh(buffers) && fresh(ctx) && fresh(ctx.stack)
    {
      buffers := new Buffers(initialSize);
      ctx := new Context();
      parsed, broken, partial := 0, false, [];
    }

    /** msgpack_unpacker_reserve_buffer, copying a chunk and msgpack_unpacker_buffer_consumed. */
    method Feed(chunk: seq<byte>, allocates: bool, pushes: bool) returns (ok: bool)
      requires Valid() && !broken && buffers.used + |chunk| < SIZE_LIMIT
      modifies buffers
      ensures Valid()
      ensures Abs() == Stream.Live(old(ctx.Abs()), old(buffers.Pending()) + (if ok then chunk else []), parsed)
      ensures buffers.views == old(buffers.views) && buffers.zone == old(buffers.zone)
      ensures (allocates && pushes && 2 * old(buffers.used + buffers.free) <= LARGEST_BLOCK
               && 2 * (old(buffers.used) + |chunk|) <= LARGEST_BLOCK) ==> ok
    {
      ok := buffers.Reserve(|chunk|, allocates, pushes);
      if ok { buffers.Fill(chunk); }
    }

    /** msgpack_unpacker_execute: the decoder runs on the unparsed bytes, its payloads become
        views. */
    method Execute() returns (ret: Return)
      requires Valid() && !broken
      modifies this, buffers, ctx, ctx.stack
      ensures buffers.Valid() && ctx.Valid() && buffers.zone == old(buffers.zone) && buffers.views >= old(buffers.views)
      ensures forall v :: v in partial ==> v in buffers.views && v.zone == buffers.zone
      ensures broken <==> ret.Error?
      ensures match Run(old(ctx.Abs()), old(buffers.Pending()))
              case Paused(st, u) =>
                ret == Continue && ctx.Abs() == st && parsed == old(parsed) + u && u <= |old(buffers.Pending())|
                && buffers.Pending() == old(buffers.Pending())[u..] && Contents(partial) == StackPayloads(st.stack)
              case Done(o, u) =>
                ret == Success && ctx.stack[0].obj == o && parsed == old(parsed) + u && u <= |old(buffers.Pending())|
                && buffers.Pending() == old(buffers.Pending())[u..] && Contents(partial) == Payloads(o)
              case Failed(e, u) => ret == Error(e)
    {
      ghost var st, pending := ctx.Abs(), buffers.Pending();
      ghost var spans := Spans(st, pending);
      RunReads(st, pending);
      var data := buffers.mem[buffers.buffer].bytes[..buffers.used];
      assert data[buffers.off..] == pending;
      var p, refers;
      ret, p, refers := ctx.Execute(data, buffers.off);
      ghost var added := NewViews(buffers.zone, buffers.buffer, buffers.off, pending, spans);
      var u := p - buffers.off;
      parsed := parsed + u;
      NewContents(buffers.zone, buffers.buffer, buffers.off, pending, spans);
      ContentsAppend(partial, added);
      buffers.Advance(u, spans, refers);
      partial := partial + added;
      broken := ret.Error?;
    }

    /** msgpack_unpacker_next_with_size. `held` is the zone of the previous result, which is
        destroyed first. On success the object's payloads are what the views `seen` read, and
        these belong to the zone handed to the caller. */
    method NextWithSize(held: Wrapped, pushes: bool, allocates: bool)
      returns (ret: Return, obj: Obj, zone: Wrapped, size: nat, ghost seen: seq<View>)
      requires Valid() && !broken && held != Some(buffers.zone)
      modifies this, buffers, ctx, ctx.stack
      ensures Valid() && (broken <==> ret.Error?)
      ensures Means(Run(old(ctx.Abs()), old(buffers.Pending())), old(buffers.Pending()), old(parsed),
                    ret, obj, size, ctx.Abs(), buffers.Pending(), parsed)
      ensures ret.Success? ==> Contents(seen) == Payloads(obj) && (forall v :: v in seen ==> v in buffers.views)
      ensures zone.Some? ==> forall v :: v in seen ==> Some(v.zone) == zone
      ensures zone.Some? ==> ret.Success? && zone == Some(old(buffers.zone))
      ensures ret.Success? && pushes && allocates ==> zone.Some?
      ensures zone != Some(buffers.zone)
      ensures forall v :: v in old(buffers.views) && Some(v.zone) != held ==> v in buffers.views
    {
      obj, zone, size, seen := Nil, None, 0, [];
      if held.Some? { buffers.FreeZone(held.id); }
      ret := Execute();
      if ret.Error? {
        return;
      }
      size := parsed;
      if ret.Success? {
        obj := ctx.stack[0].obj;
        seen := partial;
        zone := Hand(pushes, allocates);
      }
    }

    /** msgpack_unpacker_release_zone and msgpack_unpacker_reset, once an object is complete. */
    method Hand(pushes: bool, allocates: bool) returns (zone: Wrapped)
      requires buffers.Valid() && ctx.Valid() && !broken
      modifies this, buffers, ctx, ctx.stack
      ensures Valid() && !broken && buffers.views == old(buffers.views)
      ensures Abs() == Stream.Live(START, old(buffers.Pending()), 0)
      ensures zone.Some? ==> zone == Some(old(buffers.zone)) && buffers.zone != old(buffers.zone)
      ensures pushes && allocates ==> zone.Some?
    {
      var ok, z := buffers.ReleaseZone(pushes, allocates);
      zone := if ok then Some(z) else None;
      ctx.Init();
      parsed, partial := 0, [];
      NoPayloads();
    }

    /** One call of msgpack_unpacker_next_with_size, within a drain whose answer is `whole`. */
    method DrainStep(done: seq<Stream.Report>, held: Wrapped, pushes: bool, allocates: bool, ghost whole: Stream.Answer)
      returns (ret: Return, reports: seq<Stream.Report>, zone: Wrapped)
      requires Valid() && !broken && held != Some(buffers.zone)
      requires whole == Then(done, Stream.Drain(ctx.Abs(), buffers.Pending(), parsed))
      modifies this, buffers, ctx, ctx.stack
      ensures Valid() && (broken <==> ret.Error?) && zone != Some(buffers.zone)
      ensures match ret
              case Success =>
                  |buffers.Pending()| < |old(buffers.Pending())|
                  && whole == Then(reports, Stream.Drain(ctx.Abs(), buffers.Pending(), parsed))
              case Continue => whole == Stream.Answer(reports, Abs())
              case Error(e) => whole == Stream.Answer(reports, Stream.Broken(e))
    {
      ghost var st, pending, before := ctx.Abs(), buffers.Pending(), parsed;
      var obj, size;
      ghost var seen;
      ret, obj, zone, size, seen := NextWithSize(held, pushes, allocates);
      NextReport(done, st, pending, before, ret, obj, size, ctx.Abs(), buffers.Pending(), parsed);
      reports := if ret.Success? then done + [Stream.Report(obj, size)] else done;
    }

    /** Call msgpack_unpacker_next_with_size, reusing one result, until it stops succeeding. */
    method Drain(pushes: bool, allocates: bool) returns (ret: Return, reports: seq<Stream.Report>, last: Wrapped)
      requires Valid() && !broken
      modifies this, buffers, ctx, ctx.stack
      ensures Valid() && (broken <==> ret.Error?) && !ret.Success?
      ensures Stream.Drain(old(ctx.Abs()), old(buffers.Pending()), old(parsed)) ==
              Stream.Answer(reports, if ret.Error? then Stream.Broken(ret.err) else Abs())
    {
      reports, last := [], None;
      ghost var whole := Stream.Drain(ctx.Abs(), buffers.Pending(), parsed);
      ThenNone(whole);
      ret := Success;
      while ret.Success?
        invariant Valid() && (broken <==> ret.Error?) && last != Some(buffers.zone)
        invariant match ret
                  case Success => whole == Then(reports, Stream.Drain(ctx.Abs(), buffers.Pending(), parsed))
                  case Continue => whole == Stream.Answer(reports, Abs())
                  case Error(e) => whole == Stream.Answer(reports, Stream.Broken(e))
        decreases ret.Success?, |buffers.Pending()|
      {
        ret, reports, last := DrainStep(reports, last, pushes, allocates, whole);
      }
    }
  }

  lemma {:induction false} ThenNone(a: Stream.Answer)
    ensures Then([], a) == a
  {}

  /** Reports made earlier, then an answer. */
  function Then(reports: seq<Stream.Report>, a: Stream.Answer): Stream.Answer {
    Stream.Answer(reports + a.reports, a.after)
  }

  /** What one call on `bs` answers when the decoder's outcome is `out`, and what it leaves. */
  predicate Means(
      out: Outcome, bs: seq<byte>, parsed: nat, ret: Return, obj: Obj, size: nat, st': State, bs': seq<byte>,
      parsed': nat) {
    match out
    case Paused(st, u) => ret == Continue && u <= |bs| && size == parsed + u && st' == st && bs' == bs[u..]
        && parsed' == parsed + u
    case Done(o, u) => ret == Success && u <= |bs| && obj == o && size == parsed + u && st' == START && bs' == bs[u..]
        && parsed' == 0
    case Failed(e, _) => ret == Error(e)
  }

  /** What one call contributes to the answer of draining. */
  lemma {:induction false} NextReport(done: seq<Stream.Report>, st: State, bs: seq<byte>, parsed: nat,
                                      ret: Return, obj: Obj, size: nat, st': State, bs': seq<byte>, parsed': nat)
    requires Means(Run(st, bs), bs, parsed, ret, obj, size, st', bs', parsed')
    ensures Then(done, Stream.Drain(st, bs, parsed)) ==
            match ret
            case Success => Then(done + [Stream.Report(obj, size)], Stream.Drain(st', bs', parsed'))
            case Continue => Stream.Answer(done, Stream.Live(st', bs', parsed'))
            case Error(e) => Stream.Answer(done, Stream.Broken(e))
    ensures ret.Success? ==> |bs'| < |bs|
  {
    RunBounded(st, bs);
    var r := Run(st, bs);
    assert done + [] == done;
    if r.Done? {
      var x, more := Stream.Report(obj, size), Stream.Drain(START, bs', 0);
      assert done + ([x] + more.reports) == (done + [x]) + more.reports;
    }
  }

  datatype Wrapped = None | Some(id: nat)

  lemma {:induction false} NoPayloads()
    ensures Contents([]) == StackPayloads([])
  {}
}
