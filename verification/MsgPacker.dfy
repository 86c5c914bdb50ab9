/** msgpack_pack_object in place: a packer that appends to a sink which may refuse a write. */
module MsgPacker {
  import opened MsgObject
  import opened MsgMinimal

  /** A complete write, or a failed one that left only a prefix behind. */
  ghost predicate Wrote(before: seq<byte>, after: seq<byte>, bytes: seq<byte>, ok: bool) {
    if ok then after == before + bytes else before <= after <= before + bytes
  }

  lemma {:induction false} WroteTwo(s0: seq<byte>, s1: seq<byte>, s2: seq<byte>, a: seq<byte>, b: seq<byte>, ok: bool)
    requires s1 == s0 + a && Wrote(s1, s2, b, ok)
    ensures Wrote(s0, s2, a + b, ok)
  {
    assert s0 + (a + b) == (s0 + a) + b;
  }

  lemma {:induction false} WrotePart(s0: seq<byte>, s1: seq<byte>, a: seq<byte>, b: seq<byte>)
    requires Wrote(s0, s1, a, false)
    ensures Wrote(s0, s1, a + b, false)
  {
    assert s0 + (a + b) == (s0 + a) + b;
  }

  lemma {:induction false} BytesAssoc(a: seq<byte>, b: seq<byte>, c: seq<byte>)
    ensures (a + b) + c == a + (b + c)
  {}

  lemma {:induction false} ItemsSplit(xs: seq<Obj>, k: nat)
    requires k < |xs| && forall i :: 0 <= i < |xs| ==> WellFormed(xs[i])
    ensures PackItems(xs[..k + 1]) == PackItems(xs[..k]) + Pack(xs[k])
  {
    assert xs[..k + 1] == xs[..k] + [xs[k]];
    ItemsAppend(xs[..k], xs[k]);
  }

  lemma {:induction false} ItemsPrefix(xs: seq<Obj>, k: nat)
    requires k <= |xs| && forall i :: 0 <= i < |xs| ==> WellFormed(xs[i])
    ensures PackItems(xs) == PackItems(xs[..k]) + PackItems(xs[k..])
    decreases |xs| - k
  {
    if k == |xs| {
      assert xs[..k] == xs && xs[k..] == [];
    } else {
      ItemsPrefix(xs, k + 1);
      ItemsSplit(xs, k);
      var tail := xs[k..];
      assert tail[1..] == xs[k + 1..] && tail[0] == xs[k];
      assert PackItems(tail) == Pack(xs[k]) + PackItems(xs[k + 1..]);
      BytesAssoc(PackItems(xs[..k]), Pack(xs[k]), PackItems(xs[k + 1..]));
    }
  }

  lemma {:induction false} EntriesSplit(es: seq<Entry>, k: nat)
    requires k < |es| && forall i :: 0 <= i < |es| ==> WellFormed(es[i].key) && WellFormed(es[i].val)
    ensures PackEntries(es[..k + 1]) == PackEntries(es[..k]) + PackEntry(es[k])
  {
    assert es[..k + 1] == es[..k] + [es[k]];
    EntriesAppend(es[..k], es[k]);
  }

  lemma {:induction false} EntriesPrefix(es: seq<Entry>, k: nat)
    requires k <= |es| && forall i :: 0 <= i < |es| ==> WellFormed(es[i].key) && WellFormed(es[i].val)
    ensures PackEntries(es) == PackEntries(es[..k]) + PackEntries(es[k..])
    decreases |es| - k
  {
    if k == |es| {
      assert es[..k] == es && es[k..] == [];
    } else {
      EntriesPrefix(es, k + 1);
      EntriesSplit(es, k);
      var tail := es[k..];
      assert tail[1..] == es[k + 1..] && tail[0] == es[k];
      assert PackEntries(tail) == PackEntry(es[k]) + PackEntries(es[k + 1..]);
      BytesAssoc(PackEntries(es[..k]), PackEntry(es[k]), PackEntries(es[k + 1..]));
    }
  }

  class Packer {
    var sink: seq<byte>
    var accepts: nat      // how many more calls of the write callback succeed

    constructor (accepts: nat)
      ensures sink == [] && this.accepts == accepts
    {
      sink, this.accepts := [], accepts;
    }

    /** The write callback. */
    method Append(bs: seq<byte>) returns (ok: bool)
      modifies this
      ensures Wrote(old(sink), sink, bs, ok)
      ensures ok <==> old(accepts) > 0
      ensures !ok ==> accepts == 0
    {
      ok := accepts > 0;
      if ok { sink, accepts := sink + bs, accepts - 1; }
    }

    /** A header, then a body unless the header was refused. */
    method AppendTwo(header: seq<byte>, body: seq<byte>) returns (ok: bool)
      modifies this
      ensures Wrote(old(sink), sink, header + body, ok) && (!ok ==> accepts == 0)
    {
      ok := Append(header);
      if !ok {
        WrotePart(old(sink), sink, header, body);
        return;
      }
      ghost var mid := sink;
      ok := Append(body);
      WroteTwo(old(sink), mid, sink, header, body, ok);
    }

    /** msgpack_pack_object: the sink receives exactly the encoding, or a prefix of it if a
        write was refused. */
    method PackObject(o: Obj) returns (ok: bool)
      requires WellFormed(o)
      modifies this
      ensures Wrote(old(sink), sink, Pack(o), ok) && (!ok ==> accepts == 0)
      decreases o, 1
    {
      match o
      case Str(s) => ok := AppendTwo(StrHeader(|s|), s);
      case Bin(s) => ok := AppendTwo(BinHeader(|s|), s);
      case Ext(t, s) =>
        assert (ExtHeader(|s|) + [TypeByte(t)]) + s == ExtHeader(|s|) + ([TypeByte(t)] + s);
        ok := AppendTwo(ExtHeader(|s|) + [TypeByte(t)], s);
      case Arr(xs) =>
        ok := Append(ArrHeader(|xs|));
        if !ok {
          WrotePart(old(sink), sink, ArrHeader(|xs|), PackItems(xs));
          return;
        }
        ghost var mid := sink;
        ok := PackAll(xs);
        WroteTwo(old(sink), mid, sink, ArrHeader(|xs|), PackItems(xs), ok);
      case Map(es) =>
        ok := Append(MapHeader(|es|));
        if !ok {
          WrotePart(old(sink), sink, MapHeader(|es|), PackEntries(es));
          return;
        }
        ghost var mid := sink;
        ok := PackPairs(es);
        WroteTwo(old(sink), mid, sink, MapHeader(|es|), PackEntries(es), ok);
      case _ => ok := Append(Pack(o));
    }

    method PackAll(xs: seq<Obj>) returns (ok: bool)
      requires forall k :: 0 <= k < |xs| ==> WellFormed(xs[k])
      modifies this
      ensures Wrote(old(sink), sink, PackItems(xs), ok) && (!ok ==> accepts == 0)
      decreases xs, 0
    {
      var i := 0;
      assert PackItems(xs[..0]) == [];
      while i < |xs|
        invariant i <= |xs| && sink == old(sink) + PackItems(xs[..i])
      {
        ghost var mid := sink;
        ok := PackObject(xs[i]);
        ItemsSplit(xs, i);
        WroteTwo(old(sink), mid, sink, PackItems(xs[..i]), Pack(xs[i]), ok);
        i := i + 1;
        if !ok {
          ItemsPrefix(xs, i);
          WrotePart(old(sink), sink, PackItems(xs[..i]), PackItems(xs[i..]));
          return;
        }
      }
      assert xs[..i] == xs;
      ok := true;
    }

    method PackPairs(es: seq<Entry>) returns (ok: bool)
      requires forall k :: 0 <= k < |es| ==> WellFormed(es[k].key) && WellFormed(es[k].val)
      modifies this
      ensures Wrote(old(sink), sink, PackEntries(es), ok) && (!ok ==> accepts == 0)
      decreases es, 0
    {
      var i := 0;
      assert PackEntries(es[..0]) == [];
      while i < |es|
        invariant i <= |es| && sink == old(sink) + PackEntries(es[..i])
      {
        ghost var mid := sink;
        ok := PackPair(es[i]);
        EntriesSplit(es, i);
        WroteTwo(old(sink), mid, sink, PackEntries(es[..i]), PackEntry(es[i]), ok);
        i := i + 1;
        if !ok {
          EntriesPrefix(es, i);
          WrotePart(old(sink), sink, PackEntries(es[..i]), PackEntries(es[i..]));
          return;
        }
      }
      assert es[..i] == es;
      ok := true;
    }

    method PackPair(e: Entry) returns (ok: bool)
      requires WellFormed(e.key) && WellFormed(e.val)
      modifies this
      ensures Wrote(old(sink), sink, PackEntry(e), ok) && (!ok ==> accepts == 0)
      decreases e, 0
    {
      ok := PackObject(e.key);
      if !ok {
        WrotePart(old(sink), sink, Pack(e.key), Pack(e.val));
        return;
      }
      ghost var mid := sink;
      ok := PackObject(e.val);
      WroteTwo(old(sink), mid, sink, Pack(e.key), Pack(e.val), ok);
    }
  }
}
