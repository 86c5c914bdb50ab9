/** The memory behind the streaming unpacker (unpack.c, unpack.h): counted buffers shared
    between the unpacker and the zones of the objects it handed out. */
module MsgBuffers {
  import opened MsgObject
  import opened MsgPayloads

  const COUNTER_SIZE := 4
  const SIZE_LIMIT := 0x1_0000_0000_0000_0000
  const LARGEST_BLOCK := 0x7fff_ffff_ffff_ffff

  datatype Block = Block(count: nat, bytes: seq<byte>)

  /** A finalizer in a zone: it will decrement the count of a buffer. */
  datatype Fin = Fin(zone: nat, buf: nat)

  /** A str, bin or ext of an object in `zone`, pointing into a buffer. */
  datatype View = View(zone: nat, buf: nat, at: nat, bytes: seq<byte>)

  type Heap = map<nat, Block>

  // ----- reference counts

  function Refs(fins: seq<Fin>, b: nat): nat {
    if fins == [] then 0 else Refs(fins[..|fins| - 1], b) + if fins[|fins| - 1].buf == b then 1 else 0
  }

  function Without(fins: seq<Fin>, i: nat): seq<Fin>
    requires i < |fins|
  {
    fins[..i] + fins[i + 1..]
  }

  lemma {:induction false} RefsPush(fins: seq<Fin>, f: Fin, b: nat)
    ensures Refs(fins + [f], b) == Refs(fins, b) + if f.buf == b then 1 else 0
  {
    assert (fins + [f])[..|fins|] == fins;
  }

  lemma {:induction false} RefsWithout(fins: seq<Fin>, i: nat, b: nat)
    requires i < |fins|
    ensures Refs(fins, b) == Refs(Without(fins, i), b) + if fins[i].buf == b then 1 else 0
    decreases |fins|
  {
    var n := |fins| - 1;
    if i == n {
      assert Without(fins, i) == fins[..n];
    } else {
      RefsWithout(fins[..n], i, b);
      assert Without(fins, i) == Without(fins[..n], i) + [fins[n]];
      RefsPush(Without(fins[..n], i), fins[n], b);
    }
  }

  lemma {:induction false} RefsPositive(fins: seq<Fin>, f: Fin)
    requires f in fins
    ensures Refs(fins, f.buf) >= 1
  {
    var i :| 0 <= i < |fins| && fins[i] == f;
    RefsWithout(fins, i, f.buf);
  }

  /** Every allocated buffer is counted once for each pending finalizer and once if the
      unpacker owns it; nothing counts a freed buffer. */
  predicate Counts(mem: Heap, fins: seq<Fin>, owned: set<nat>) {
    && (forall b :: b in mem ==> mem[b].count == Refs(fins, b) + (if b in owned then 1 else 0))
    && (forall b :: b in mem ==> mem[b].count >= 1)
    && (forall f :: f in fins ==> f.buf in mem)
    && owned <= mem.Keys
  }

  /** decr_count. */
  function Released(mem: Heap, b: nat): Heap
    requires b in mem && mem[b].count >= 1
  {
    if mem[b].count == 1 then mem - {b} else mem[b := Block(mem[b].count - 1, mem[b].bytes)]
  }

  /** What is still allocated kept its bytes. */
  predicate SameBytes(mem: Heap, mem': Heap) {
    forall b :: b in mem' ==> b in mem && mem'[b].bytes == mem[b].bytes
  }

  lemma {:induction false} ReleaseFin(mem: Heap, fins: seq<Fin>, i: nat, owned: set<nat>)
    requires Counts(mem, fins, owned) && i < |fins|
    ensures fins[i] in fins && fins[i].buf in mem
    ensures Counts(Released(mem, fins[i].buf), Without(fins, i), owned)
    ensures SameBytes(mem, Released(mem, fins[i].buf))
  {
    var b := fins[i].buf;
    assert fins[i] in fins;
    var mem', fins' := Released(mem, b), Without(fins, i);
    forall c | c in mem' ensures mem'[c].count == Refs(fins', c) + (if c in owned then 1 else 0) {
      RefsWithout(fins, i, c);
    }
    RefsWithout(fins, i, b);
    forall f | f in fins' ensures f.buf in mem' {
      assert f in fins;
      if f.buf == b { RefsPositive(fins', f); }
    }
  }

  lemma {:induction false} ReleaseOwned(mem: Heap, fins: seq<Fin>, b: nat)
    requires Counts(mem, fins, {b})
    ensures b in mem && Counts(Released(mem, b), fins, {})
    ensures SameBytes(mem, Released(mem, b))
  {
    assert b in {b};
    forall f | f in fins ensures f.buf in Released(mem, b) {
      if f.buf == b { RefsPositive(fins, f); }
    }
  }

  lemma {:induction false} NoRefs(mem: Heap, fins: seq<Fin>, owned: set<nat>, b: nat)
    requires Counts(mem, fins, owned) && b !in mem
    ensures Refs(fins, b) == 0
  {
    NoneRefs(fins, b);
  }

  lemma {:induction false} NoneRefs(fins: seq<Fin>, b: nat)
    requires forall f :: f in fins ==> f.buf != b
    ensures Refs(fins, b) == 0
  {
    if fins != [] {
      assert fins[|fins| - 1] in fins;
      NoneRefs(fins[..|fins| - 1], b);
    }
  }

  /** A new buffer with one owner. */
  lemma {:induction false} AllocOwned(mem: Heap, fins: seq<Fin>, b: nat, bytes: seq<byte>)
    requires Counts(mem, fins, {}) && b !in mem
    ensures Counts(mem[b := Block(1, bytes)], fins, {b})
  {
    NoRefs(mem, fins, {}, b);
  }

  /** The owner's reference becomes a finalizer's. */
  lemma {:induction false} HandOver(mem: Heap, fins: seq<Fin>, b: nat, zone: nat)
    requires Counts(mem, fins, {b})
    ensures Counts(mem, fins + [Fin(zone, b)], {})
  {
    assert b in {b};
    forall c | c in mem ensures mem[c].count == Refs(fins + [Fin(zone, b)], c) {
      RefsPush(fins, Fin(zone, b), c);
    }
  }

  /** A finalizer takes a reference of its own. */
  lemma {:induction false} ShareOwned(mem: Heap, fins: seq<Fin>, b: nat, zone: nat)
    requires Counts(mem, fins, {b})
    ensures b in mem
    ensures Counts(mem[b := Block(mem[b].count + 1, mem[b].bytes)], fins + [Fin(zone, b)], {b})
  {
    assert b in {b};
    var mem' := mem[b := Block(mem[b].count + 1, mem[b].bytes)];
    forall c | c in mem' ensures mem'[c].count == Refs(fins + [Fin(zone, b)], c) + (if c in {b} then 1 else 0) {
      RefsPush(fins, Fin(zone, b), c);
    }
  }

  // ----- views

  predicate Reads(v: View, mem: Heap) {
    && v.buf in mem && v.at + |v.bytes| <= |mem[v.buf].bytes|
    && mem[v.buf].bytes[v.at..v.at + |v.bytes|] == v.bytes
  }

  /** Who keeps the buffer of a view alive: a finalizer in the view's own zone, or the
      unpacker, as long as it remembers that its zone refers to its buffer. */
  predicate Protected(v: View, fins: seq<Fin>, buffer: nat, zone: nat, referenced: bool) {
    Fin(v.zone, v.buf) in fins || (referenced && v.buf == buffer && v.zone == zone)
  }

  /** A live view: it reads its bytes, in the parsed part of its buffer, which stays alive. */
  predicate GoodView(v: View, mem: Heap, fins: seq<Fin>, buffer: nat, off: nat, zone: nat, referenced: bool) {
    && Reads(v, mem) && COUNTER_SIZE <= v.at
    && (v.buf == buffer ==> v.at + |v.bytes| <= off)
    && Protected(v, fins, buffer, zone, referenced)
  }

  predicate GoodViews(views: set<View>, mem: Heap, fins: seq<Fin>, buffer: nat, off: nat, zone: nat, referenced: bool) {
    forall v :: v in views ==> GoodView(v, mem, fins, buffer, off, zone, referenced)
  }

  /** A buffer counted once and not referred to has no views and no finalizers. */
  lemma {:induction false} NoViews(views: set<View>, mem: Heap, fins: seq<Fin>, buffer: nat, off: nat, zone: nat)
    requires Counts(mem, fins, {buffer}) && buffer in mem && mem[buffer].count == 1
    requires GoodViews(views, mem, fins, buffer, off, zone, false)
    ensures forall f :: f in fins ==> f.buf != buffer
    ensures forall v :: v in views ==> v.buf != buffer
  {
    forall f | f in fins ensures f.buf != buffer {
      if f.buf == buffer { RefsPositive(fins, f); }
    }
    forall v | v in views ensures v.buf != buffer {
      assert GoodView(v, mem, fins, buffer, off, zone, false);
    }
  }

  /** Views whose buffers survive with their bytes, while the unpacker moves on to another
      buffer. */
  lemma {:induction false} ViewsMove(views: set<View>, mem: Heap, fins: seq<Fin>, buffer: nat, off: nat, zone: nat,
                                     mem': Heap, buffer': nat, off': nat, bytes: seq<byte>)
    requires GoodViews(views, mem, fins, buffer, off, zone, false)
    requires forall f :: f in fins ==> f.buf in mem'
    requires SameBytes(mem, mem') && buffer' !in mem
    ensures GoodViews(views, mem'[buffer' := Block(1, bytes)], fins, buffer', off', zone, false)
  {
    forall v | v in views ensures GoodView(v, mem'[buffer' := Block(1, bytes)], fins, buffer', off', zone, false) {
      assert GoodView(v, mem, fins, buffer, off, zone, false);
      assert Fin(v.zone, v.buf) in fins && v.buf in mem';
    }
  }

  /** The unpacker's reference is handed to a finalizer of its zone. */
  lemma {:induction false} ViewsHandOver(
      views: set<View>, mem: Heap, fins: seq<Fin>, buffer: nat, off: nat, zone: nat, referenced: bool, zone': nat)
    requires GoodViews(views, mem, fins, buffer, off, zone, referenced)
    ensures GoodViews(views, mem, fins + [Fin(zone, buffer)], buffer, off, zone', false)
  {
    var fins' := fins + [Fin(zone, buffer)];
    forall v | v in views ensures GoodView(v, mem, fins', buffer, off, zone', false) {
      assert GoodView(v, mem, fins, buffer, off, zone, referenced);
      assert fins'[|fins|] == Fin(zone, buffer);
      if Fin(v.zone, v.buf) in fins { assert Fin(v.zone, v.buf) in fins'; }
    }
  }

  /** Only counts change. */
  lemma {:induction false} ViewsCount(
      views: set<View>, mem: Heap, mem': Heap, fins: seq<Fin>, buffer: nat, off: nat, zone: nat, referenced: bool)
    requires GoodViews(views, mem, fins, buffer, off, zone, referenced)
    requires mem'.Keys == mem.Keys && SameBytes(mem, mem')
    ensures GoodViews(views, mem', fins, buffer, off, zone, referenced)
  {
    forall v | v in views ensures GoodView(v, mem', fins, buffer, off, zone, referenced) {
      assert GoodView(v, mem, fins, buffer, off, zone, referenced);
    }
  }

  /** The free part of the current buffer is overwritten. */
  lemma {:induction false} ViewsFill(
      views: set<View>, mem: Heap, fins: seq<Fin>, buffer: nat, off: nat, zone: nat, referenced: bool, bytes: seq<byte>)
    requires GoodViews(views, mem, fins, buffer, off, zone, referenced) && buffer in mem
    requires off <= |bytes| && off <= |mem[buffer].bytes| && bytes[..off] == mem[buffer].bytes[..off]
    ensures GoodViews(views, mem[buffer := Block(mem[buffer].count, bytes)], fins, buffer, off, zone, referenced)
  {
    var mem' := mem[buffer := Block(mem[buffer].count, bytes)];
    forall v | v in views ensures GoodView(v, mem', fins, buffer, off, zone, referenced) {
      assert GoodView(v, mem, fins, buffer, off, zone, referenced);
      if v.buf == buffer { SlicePrefix(mem[buffer].bytes, bytes, off, v.at, v.at + |v.bytes|); }
    }
  }

  /** The views of a list of spans in the unparsed bytes. */
  function NewViews(zone: nat, buffer: nat, off: nat, pending: seq<byte>, spans: seq<Span>): (r: seq<View>)
    requires Inside(spans, |pending|)
    ensures |r| == |spans|
    ensures forall i :: 0 <= i < |r|
             ==> r[i] == View(zone, buffer, off + spans[i].at, pending[spans[i].at..spans[i].at + spans[i].len])
  {
    seq(|spans|, i requires 0 <= i < |spans| =>
        View(zone, buffer, off + spans[i].at, pending[spans[i].at..spans[i].at + spans[i].len]))
  }

  function Elements(s: seq<View>): set<View> { set v | v in s }

  lemma {:induction false} ViewsAdvance(
      views: set<View>, mem: Heap, fins: seq<Fin>, buffer: nat, off: nat, used: nat, zone: nat, referenced: bool,
      u: nat, spans: seq<Span>)
    requires GoodViews(views, mem, fins, buffer, off, zone, referenced)
    requires buffer in mem && COUNTER_SIZE <= off && off + u <= used <= |mem[buffer].bytes| && Inside(spans, u)
    ensures GoodViews(views + Elements(NewViews(zone, buffer, off, mem[buffer].bytes[off..used], spans)),
                      mem, fins, buffer, off + u, zone, referenced || spans != [])
  {
    var pending := mem[buffer].bytes[off..used];
    var added := NewViews(zone, buffer, off, pending, spans);
    var r' := referenced || spans != [];
    forall v | v in views ensures GoodView(v, mem, fins, buffer, off + u, zone, r') {
      assert GoodView(v, mem, fins, buffer, off, zone, referenced);
    }
    forall v | v in added ensures GoodView(v, mem, fins, buffer, off + u, zone, r') {
      var i :| 0 <= i < |added| && added[i] == v;
      NewView(mem, fins, buffer, off, used, zone, u, spans, i);
    }
  }

  lemma {:induction false} NewView(
      mem: Heap, fins: seq<Fin>, buffer: nat, off: nat, used: nat, zone: nat, u: nat, spans: seq<Span>, i: nat)
    requires buffer in mem && COUNTER_SIZE <= off && off + u <= used <= |mem[buffer].bytes| && Inside(spans, u)
        && i < |spans|
    ensures GoodView(NewViews(zone, buffer, off, mem[buffer].bytes[off..used], spans)[i], mem, fins, buffer, off + u,
        zone, true)
  {
    SliceOfSlice(mem[buffer].bytes, off, used, spans[i].at, spans[i].at + spans[i].len);
  }

  class Buffers {
    var mem: Heap
    var fins: seq<Fin>
    var buffer: nat
    var used: nat
    var free: nat
    var off: nat
    var zone: nat
    var referenced: bool
    const initial: nat
    var nextBuffer: nat
    var nextZone: nat
    ghost var views: set<View>

    ghost predicate Valid()
      reads this
    {
      && Counts(mem, fins, {buffer})
      && buffer in mem && COUNTER_SIZE <= off <= used && used + free == |mem[buffer].bytes| <= LARGEST_BLOCK
      && COUNTER_SIZE <= initial <= LARGEST_BLOCK
      && (referenced || mem[buffer].count > 1 ==> off > COUNTER_SIZE)
      && GoodViews(views, mem, fins, buffer, off, zone, referenced)
      && (forall b :: b in mem ==> b < nextBuffer)
      && zone < nextZone && (forall f :: f in fins ==> f.zone < nextZone)
      && (forall v :: v in views ==> v.zone < nextZone)
    }

    /** The bytes not parsed yet. */
    ghost function Pending(): seq<byte>
      reads this
      requires Valid()
    {
      mem[buffer].bytes[off..used]
    }

    /** msgpack_unpacker_init, when its allocations succeed. */
    constructor (initialSize: nat)
      requires initialSize <= LARGEST_BLOCK
      ensures Valid() && Pending() == [] && views == {} && fins == []
    {
      var size := if initialSize < COUNTER_SIZE then COUNTER_SIZE else initialSize;
      mem := map[0 := Block(1, seq(size, _ => 0))];
      fins := [];
      buffer, nextBuffer, zone, nextZone := 0, 1, 0, 1;
      used, free, off := COUNTER_SIZE, size - COUNTER_SIZE, COUNTER_SIZE;
      referenced := false;
      initial := size;
      views := {};
    }

    /** The doubling loop of msgpack_unpacker_expand_buffer, with its wrap-around test. */
    static method NextSize(start: nat, need: nat) returns (n: nat)
      requires 1 <= start < SIZE_LIMIT && need < SIZE_LIMIT
      ensures need <= n < SIZE_LIMIT && start <= n
      ensures n == start || n < 2 * need
    {
      n := start;
      while n < need
        invariant 1 <= start <= n < SIZE_LIMIT
        invariant n == start || n < 2 * need
        decreases need - n
      {
        var twice := (n * 2) % SIZE_LIMIT;
        if twice <= n {
          n := need;
          break;
        }
        n := twice;
      }
    }

    /** Rewind: only when everything is parsed and nobody looks into the buffer. */
    method Rewind()
      requires Valid() && used == off && mem[buffer].count == 1 && !referenced
      modifies this
      ensures Valid() && Pending() == old(Pending())
      ensures mem == old(mem) && buffer == old(buffer) && fins == old(fins) && zone == old(zone) && views == old(views)
      ensures off == used == COUNTER_SIZE && used + free == old(used + free)
    {
      NoViews(views, mem, fins, buffer, off, zone);
      free := free + (used - COUNTER_SIZE);
      used := COUNTER_SIZE;
      off := COUNTER_SIZE;
      assert forall v :: v in views ==> old(GoodView(v, mem, fins, buffer, off, zone, false));
    }

    /** realloc of a buffer that starts with unparsed bytes. The block moves, and the old one is
        freed whatever its count: nobody may look into it. */
    method Grow(size: nat, allocates: bool) returns (ok: bool)
      requires Valid() && off == COUNTER_SIZE && used + size < SIZE_LIMIT
      modifies this
      ensures Valid() && Pending() == old(Pending())
      ensures views == old(views) && zone == old(zone)
      ensures ok ==> free >= size
      ensures allocates && 2 * old(used + free) <= LARGEST_BLOCK && 2 * old(used + size) <= LARGEST_BLOCK ==> ok
    {
      var n := NextSize((used + free) * 2, size + used);
      if !allocates || n > LARGEST_BLOCK {
        return false;
      }
      var bytes := mem[buffer].bytes + seq(n - |mem[buffer].bytes|, _ => 0);
      assert bytes[off..used] == mem[buffer].bytes[off..used];
      assert mem[buffer].count == 1;
      ReleaseOwned(mem, fins, buffer);
      mem := mem - {buffer};
      Adopt(old(mem), bytes, used);
      return true;
    }

    /** A new buffer for the unparsed bytes; the old one lives on if a zone refers to it. */
    method Replace(size: nat, allocates: bool, pushes: bool) returns (ok: bool)
      requires Valid() && off > COUNTER_SIZE && used + size < SIZE_LIMIT
      modifies this
      ensures Valid() && Pending() == old(Pending())
      ensures views == old(views) && zone == old(zone)
      ensures ok ==> free >= size
      ensures allocates && pushes && 2 * old(used + size) <= LARGEST_BLOCK ==> ok
    {
      var rest := used - off;
      var n := NextSize(initial, size + rest + COUNTER_SIZE);
      if !allocates || n > LARGEST_BLOCK || (referenced && !pushes) {
        return false;
      }
      var bytes := seq(COUNTER_SIZE, _ => 0) + mem[buffer].bytes[off..used] + seq(n - rest - COUNTER_SIZE, _ => 0);
      assert bytes[COUNTER_SIZE..COUNTER_SIZE + rest] == mem[buffer].bytes[off..used];
      LetGo();
      Adopt(old(mem), bytes, rest + COUNTER_SIZE);
      return true;
    }

    /** A fresh buffer, used up to `n`, becomes the current one; `was` is the heap before the
        last one was given up. */
    method Adopt(ghost was: Heap, bytes: seq<byte>, n: nat)
      requires Counts(mem, fins, {}) && !referenced && SameBytes(was, mem)
      requires GoodViews(views, was, fins, buffer, off, zone, false) && (forall b :: b in was ==> b < nextBuffer)
      requires COUNTER_SIZE <= n <= |bytes| <= LARGEST_BLOCK && COUNTER_SIZE <= initial <= LARGEST_BLOCK
      requires zone < nextZone && (forall f :: f in fins ==> f.zone < nextZone)
          && (forall v :: v in views ==> v.zone < nextZone)
      modifies this
      ensures Valid() && Pending() == bytes[COUNTER_SIZE..n] && free == |bytes| - n
      ensures views == old(views) && zone == old(zone)
    {
      AllocOwned(mem, fins, nextBuffer, bytes);
      ViewsMove(views, was, fins, buffer, off, zone, mem, nextBuffer, COUNTER_SIZE, bytes);
      mem := mem[nextBuffer := Block(1, bytes)];
      buffer := nextBuffer;
      nextBuffer := nextBuffer + 1;
      used, free, off := n, |bytes| - n, COUNTER_SIZE;
    }

    /** The unpacker gives up its buffer: a finalizer takes over its reference if the zone
        refers to the buffer, else the count is decremented. */
    method LetGo()
      requires Valid()
      modifies this`mem, this`fins, this`referenced
      ensures !referenced && Counts(mem, fins, {}) && SameBytes(old(mem), mem)
      ensures GoodViews(views, old(mem), fins, buffer, off, zone, false)
      ensures forall f :: f in fins ==> f.zone < nextZone
    {
      if referenced {
        HandOver(mem, fins, buffer, zone);
        ViewsHandOver(views, mem, fins, buffer, off, zone, referenced, zone);
        fins := fins + [Fin(zone, buffer)];
        referenced := false;
      } else {
        ReleaseOwned(mem, fins, buffer);
        mem := Released(mem, buffer);
      }
    }

    /** msgpack_unpacker_expand_buffer: afterwards there is room, the unparsed bytes are still
        there, and every view still reads what it read. */
    method Expand(size: nat, allocates: bool, pushes: bool) returns (ok: bool)
      requires Valid() && used + size < SIZE_LIMIT
      modifies this
      ensures Valid() && Pending() == old(Pending())
      ensures views == old(views) && zone == old(zone)
      ensures ok ==> free >= size
      ensures allocates && pushes && 2 * old(used + free) <= LARGEST_BLOCK && 2 * old(used + size) <= LARGEST_BLOCK
          ==> ok
      ensures old(used == off && mem[buffer].count == 1 && !referenced
          && |mem[buffer].bytes| - COUNTER_SIZE >= size) ==>
                ok && buffer == old(buffer) && mem == old(mem)
    {
      if used == off && mem[buffer].count == 1 && !referenced {
        Rewind();
        if free >= size {
          return true;
        }
      }
      if off == COUNTER_SIZE {
        ok := Grow(size, allocates);
      } else {
        ok := Replace(size, allocates, pushes);
      }
    }

    /** msgpack_unpacker_reserve_buffer. */
    method Reserve(size: nat, allocates: bool, pushes: bool) returns (ok: bool)
      requires Valid() && used + size < SIZE_LIMIT
      modifies this
      ensures Valid() && Pending() == old(Pending())
      ensures views == old(views) && zone == old(zone)
      ensures ok ==> free >= size
      ensures allocates && pushes && 2 * old(used + free) <= LARGEST_BLOCK && 2 * old(used + size) <= LARGEST_BLOCK
          ==> ok
      ensures old(free) >= size ==> ok && mem == old(mem) && buffer == old(buffer)
    {
      if free >= size {
        return true;
      }
      ok := Expand(size, allocates, pushes);
    }

    /** The user copies a chunk to msgpack_unpacker_buffer and calls
        msgpack_unpacker_buffer_consumed. */
    method Fill(chunk: seq<byte>)
      requires Valid() && |chunk| <= free
      modifies this
      ensures Valid() && Pending() == old(Pending()) + chunk
      ensures views == old(views) && zone == old(zone) && fins == old(fins) && off == old(off)
    {
      var b := mem[buffer];
      var bytes := b.bytes[..used] + chunk + b.bytes[used + |chunk|..];
      assert bytes[off..used + |chunk|] == b.bytes[off..used] + chunk;
      assert bytes[..off] == b.bytes[..off];
      ViewsFill(views, mem, fins, buffer, off, zone, referenced, bytes);
      mem := mem[buffer := Block(b.count, bytes)];
      used := used + |chunk|;
      free := free - |chunk|;
    }

    /** What an execution of the decoder does to the buffers: `u` bytes are parsed, and the
        objects in the zone now refer to the spans among them. */
    method Advance(u: nat, ghost spans: seq<Span>, refers: bool)
      requires Valid() && off + u <= used
      requires Inside(spans, u) && (refers <==> spans != []) && (refers ==> u >= 1)
      modifies this
      ensures Valid() && Pending() == old(Pending())[u..]
      ensures Inside(spans, |old(Pending())|)
      ensures views == old(views) + Elements(NewViews(zone, buffer, old(off), old(Pending()), spans))
      ensures zone == old(zone) && buffer == old(buffer) && mem == old(mem) && fins == old(fins) && off == old(off) + u
    {
      ViewsAdvance(views, mem, fins, buffer, off, used, zone, referenced, u, spans);
      views := views + Elements(NewViews(zone, buffer, off, Pending(), spans));
      off := off + u;
      referenced := referenced || refers;
    }

    /** msgpack_unpacker_flush_zone. */
    method Flush(pushes: bool) returns (ok: bool)
      requires Valid()
      modifies this
      ensures Valid() && Pending() == old(Pending())
      ensures views == old(views) && zone == old(zone) && nextZone == old(nextZone)
      ensures ok ==> !referenced
      ensures ok <==> pushes || !old(referenced)
      ensures fins == if old(referenced) && pushes then old(fins) + [Fin(zone, buffer)] else old(fins)
    {
      if referenced {
        if !pushes {
          return false;
        }
        ShareOwned(mem, fins, buffer, zone);
        ViewsHandOver(views, mem, fins, buffer, off, zone, referenced, zone);
        var mem' := mem[buffer := Block(mem[buffer].count + 1, mem[buffer].bytes)];
        ViewsCount(views, mem, mem', fins + [Fin(zone, buffer)], buffer, off, zone, false);
        fins := fins + [Fin(zone, buffer)];
        referenced := false;
        mem := mem';
      }
      return true;
    }

    /** msgpack_unpacker_release_zone: the zone, with everything it refers to, becomes the
        caller's. */
    method ReleaseZone(pushes: bool, allocates: bool) returns (ok: bool, released: nat)
      requires Valid()
      modifies this
      ensures Valid() && Pending() == old(Pending()) && views == old(views)
      ensures ok <==> (pushes || !old(referenced)) && allocates
      ensures ok ==> released == old(zone) && zone != released && zone == old(nextZone) && !referenced
      ensures !ok ==> zone == old(zone)
    {
      released := zone;
      ok := Flush(pushes);
      if !ok || !allocates {
        return false, released;
      }
      assert forall v :: v in views ==>
                           GoodView(v, mem, fins, buffer, off, zone, false) ==>
                           GoodView(v, mem, fins, buffer, off, nextZone, false);
      zone := nextZone;
      nextZone := nextZone + 1;
    }

    /** call_finalizer_array on the finalizers of one zone, last pushed first. */
    method RunFinalizers(dead: nat, ghost owned: set<nat>)
      requires Counts(mem, fins, owned)
      modifies this`mem, this`fins
      ensures Counts(mem, fins, owned) && SameBytes(old(mem), mem)
      ensures fins == Others(old(fins), dead)
      ensures forall b :: b in mem ==> mem[b].count <= old(mem)[b].count
    {
      var i := |fins|;
      ghost var was := fins;
      assert fins == was[..i] + Others(was[i..], dead);
      while i > 0
        invariant i <= |was| && fins == was[..i] + Others(was[i..], dead)
        invariant Counts(mem, fins, owned) && SameBytes(old(mem), mem)
        invariant forall b :: b in mem ==> mem[b].count <= old(mem)[b].count
      {
        i := i - 1;
        OthersCons(was, i, dead);
        assert fins[i] == was[i];
        if fins[i].zone == dead { RunFinalizer(i, owned); }
      }
    }

    /** decr_count as the finalizer at position `i`, which is gone afterwards. */
    method RunFinalizer(i: nat, ghost owned: set<nat>)
      requires Counts(mem, fins, owned) && i < |fins|
      modifies this`mem, this`fins
      ensures Counts(mem, fins, owned) && SameBytes(old(mem), mem) && fins == Without(old(fins), i)
      ensures forall b :: b in mem ==> mem[b].count <= old(mem)[b].count
    {
      ReleaseFin(mem, fins, i, owned);
      mem := Released(mem, fins[i].buf);
      fins := Without(fins, i);
    }

    /** msgpack_unpacked_destroy or msgpack_zone_clear on a zone: its views die; all others,
        and the unparsed bytes, stay. */
    method FreeZone(dead: nat)
      requires Valid()
      modifies this
      ensures Valid() && Pending() == old(Pending()) && zone == old(zone) && buffer == old(buffer)
      ensures views == Survivors(old(views), dead)
      ensures fins == Others(old(fins), dead) && SameBytes(old(mem), mem)
      ensures off == old(off) && used == old(used) && free == old(free)
    {
      RunFinalizers(dead, {buffer});
      ViewsOthers(views, old(mem), mem, old(fins), buffer, off, zone, referenced, dead);
      views := Survivors(views, dead);
      forall f | f in fins ensures f.zone < nextZone { OthersIn(old(fins), dead, f); }
    }

    /** msgpack_unpacker_destroy: the views of other zones survive the unpacker. */
    method Destroy()
      requires Valid()
      modifies this
      ensures Counts(mem, fins, {}) && fins == Others(old(fins), old(zone))
      ensures views == Survivors(old(views), old(zone))
      ensures forall v :: v in views ==> Reads(v, mem) && Fin(v.zone, v.buf) in fins
    {
      FreeZone(zone);
      ReleaseOwned(mem, fins, buffer);
      ghost var was := mem;
      mem := Released(mem, buffer);
      forall v | v in views ensures Reads(v, mem) && Fin(v.zone, v.buf) in fins {
        assert GoodView(v, was, fins, buffer, off, zone, referenced);
      }
    }
  }

  /** The views of objects in other zones. */
  function Survivors(views: set<View>, dead: nat): set<View> { set v | v in views && v.zone != dead }

  /** The finalizers of the other zones. */
  function Others(fins: seq<Fin>, dead: nat): seq<Fin> {
    if fins == [] then [] else (if fins[0].zone == dead then [] else [fins[0]]) + Others(fins[1..], dead)
  }

  lemma {:induction false} OthersCons(fins: seq<Fin>, i: nat, dead: nat)
    requires i < |fins|
    ensures Others(fins[i..], dead) == (if fins[i].zone == dead then [] else [fins[i]]) + Others(fins[i + 1..], dead)
    ensures fins[..i + 1] == fins[..i] + [fins[i]]
  {
    assert fins[i..][1..] == fins[i + 1..];
  }

  lemma {:induction false} OthersIn(fins: seq<Fin>, dead: nat, f: Fin)
    ensures f in Others(fins, dead) <==> f in fins && f.zone != dead
  {
    if fins != [] {
      OthersIn(fins[1..], dead, f);
      assert fins == [fins[0]] + fins[1..];
    }
  }

  lemma {:induction false} ViewsOthers(
      views: set<View>, mem: Heap, mem': Heap, fins: seq<Fin>, buffer: nat, off: nat, zone: nat, referenced: bool,
      dead: nat)
    requires GoodViews(views, mem, fins, buffer, off, zone, referenced)
    requires Counts(mem', Others(fins, dead), {buffer}) && SameBytes(mem, mem')
    ensures GoodViews(Survivors(views, dead), mem', Others(fins, dead), buffer, off, zone, referenced)
  {
    forall v | v in views && v.zone != dead
        ensures GoodView(v, mem', Others(fins, dead), buffer, off, zone, referenced) {
      assert GoodView(v, mem, fins, buffer, off, zone, referenced);
      OthersIn(fins, dead, Fin(v.zone, v.buf));
      assert buffer in {buffer};
    }
  }

  /** Once the unpacker and every zone are gone, every buffer has been freed. */
  lemma {:induction false} NoLeak(mem: Heap)
    requires Counts(mem, [], {})
    ensures mem == map[]
  {
    if b :| b in mem { assert false; }
  }

  lemma {:induction false} SlicePrefix(a: seq<byte>, b: seq<byte>, n: nat, i: nat, j: nat)
    requires n <= |a| && n <= |b| && a[..n] == b[..n] && i <= j <= n
    ensures a[i..j] == b[i..j]
  {
    assert a[i..j] == a[..n][i..j] && b[i..j] == b[..n][i..j];
  }

  lemma {:induction false} SliceOfSlice(s: seq<byte>, from: nat, to: nat, i: nat, j: nat)
    requires from <= to <= |s| && i <= j <= to - from
    ensures s[from..to][i..j] == s[from + i..from + j]
  {
    assert forall k :: 0 <= k < j - i ==> s[from..to][i..j][k] == s[from + i + k];
  }
}
