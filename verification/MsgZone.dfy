/** The memory zone of msgpack (zone.c, zone.h): bump allocation in a list of chunks, and
    finalizers. */
module MsgZone {

  const ALIGN := 8               // sizeof(void*)
  const HEADER := 8              // sizeof(msgpack_zone_chunk)
  const FINALIZER_SIZE := 16
  const SIZE_LIMIT := 0x1_0000_0000_0000_0000

  datatype Option<T> = None | Some(value: T)

  /** A chunk: its address and the number of its data bytes. */
  datatype Chunk = Chunk(base: nat, size: nat)

  /** A block handed out, in the chunk it was cut from. */
  datatype Block = Block(addr: nat, len: nat, chunk: Chunk)

  datatype Finalizer = Finalizer(func: nat, data: nat)

  function Start(c: Chunk): nat { c.base + HEADER }

  function End(c: Chunk): nat { c.base + HEADER + c.size }

  predicate ChunksApart(c: Chunk, d: Chunk) { End(c) <= d.base || End(d) <= c.base }

  predicate BlocksApart(a: Block, b: Block) { a.addr + a.len <= b.addr || b.addr + b.len <= a.addr }

  /** Inside its chunk and, in the chunk being filled, below the cursor. */
  predicate Inside(b: Block, chunks: seq<Chunk>, ptr: nat) {
    && b.chunk in chunks && Start(b.chunk) <= b.addr && b.addr + b.len <= End(b.chunk)
    && (chunks != [] && b.chunk == chunks[0] ==> b.addr + b.len <= ptr)
  }

  /** The chunks, head first: word-aligned, apart from each other, and the oldest one with
      exactly `chunkSize` bytes. */
  predicate ChunksOk(chunks: seq<Chunk>, chunkSize: nat) {
    && chunks != [] && chunks[|chunks| - 1].size == chunkSize
    && (forall i :: 0 <= i < |chunks| ==> chunks[i].base % ALIGN == 0)
    && (forall i, j :: 0 <= i < j < |chunks| ==> ChunksApart(chunks[i], chunks[j]))
  }

  predicate BlocksOk(blocks: seq<Block>, chunks: seq<Chunk>, ptr: nat) {
    && (forall i :: 0 <= i < |blocks| ==> Inside(blocks[i], chunks, ptr))
    && (forall i, j :: 0 <= i < j < |blocks| ==> BlocksApart(blocks[i], blocks[j]))
  }

  /** A block cut off at the cursor is apart from all others. */
  lemma {:induction false} CutBlock(
      blocks: seq<Block>, chunks: seq<Chunk>, chunkSize: nat, ptr: nat, b: Block, ptr': nat)
    requires ChunksOk(chunks, chunkSize) && BlocksOk(blocks, chunks, ptr)
    requires b.chunk == chunks[0] && Start(chunks[0]) <= ptr <= b.addr && b.addr + b.len == ptr' <= End(chunks[0])
    ensures BlocksOk(blocks + [b], chunks, ptr')
  {
    forall i | 0 <= i < |blocks| ensures BlocksApart(blocks[i], b) {
      var c := blocks[i].chunk;
      assert Inside(blocks[i], chunks, ptr);
      var j :| 0 <= j < |chunks| && chunks[j] == c;
      if j > 0 { assert ChunksApart(chunks[0], chunks[j]); }
    }
  }

  /** The cursor of the head chunk no longer matters once there is a new head. */
  lemma {:induction false} PushChunk(blocks: seq<Block>, chunks: seq<Chunk>, chunkSize: nat, ptr: nat, c: Chunk)
    requires ChunksOk(chunks, chunkSize) && BlocksOk(blocks, chunks, ptr) && c.base % ALIGN == 0
    requires forall i :: 0 <= i < |chunks| ==> ChunksApart(c, chunks[i])
    ensures ChunksOk([c] + chunks, chunkSize) && BlocksOk(blocks, [c] + chunks, Start(c))
  {
    var all := [c] + chunks;
    assert forall i :: 1 <= i < |all| ==> all[i] == chunks[i - 1];
    forall i | 0 <= i < |blocks| ensures Inside(blocks[i], all, Start(c)) {
      assert Inside(blocks[i], chunks, ptr);
      var j :| 0 <= j < |chunks| && chunks[j] == blocks[i].chunk;
      assert all[j + 1] == blocks[i].chunk;
      assert ChunksApart(c, chunks[j]);
    }
  }

  function AlignUp(p: nat): (r: nat)
    ensures r % ALIGN == 0 && p <= r < p + ALIGN
  {
    (p + (ALIGN - 1)) / ALIGN * ALIGN
  }

  function AlignDown(p: nat): (r: nat)
    ensures r % ALIGN == 0 && r <= p < r + ALIGN
  {
    p / ALIGN * ALIGN
  }

  /** Rounding down does not move the data of a word-aligned chunk. */
  lemma {:induction false} ChunkDataAligned(at: nat)
    requires at % ALIGN == 0
    ensures AlignDown(at + HEADER) == at + HEADER
  {}

  /** The size of a new chunk: doubled until it is enough, or what is needed if doubling
      wraps around. */
  function ExpandedSize(sz: nat, size: nat): (r: nat)
    requires sz < SIZE_LIMIT && size < SIZE_LIMIT
    ensures size <= r < SIZE_LIMIT && sz <= r
    decreases size - sz
  {
    if sz >= size then sz
    else
      var twice := (sz * 2) % SIZE_LIMIT;
      if twice <= sz then size else ExpandedSize(twice, size)
  }

  class Zone {
    const chunkSize: nat
    var chunks: seq<Chunk>             // head first
    var ptr: nat
    var free: nat
    var finalizers: seq<Finalizer>     // array .. tail
    var capacity: nat                  // array .. end
    ghost var blocks: seq<Block>       // live blocks

    ghost predicate Valid()
      reads this
    {
      && chunkSize < SIZE_LIMIT && ChunksOk(chunks, chunkSize) && BlocksOk(blocks, chunks, ptr)
      && Start(chunks[0]) <= ptr && ptr + free == End(chunks[0])
      && |finalizers| <= capacity
    }

    /** msgpack_zone_init, with the address malloc gave. */
    constructor (chunkSize: nat, at: nat)
      requires chunkSize < SIZE_LIMIT && at % ALIGN == 0
      ensures Valid() && blocks == [] && finalizers == []
    {
      this.chunkSize := chunkSize;
      chunks, ptr, free := [Chunk(at, chunkSize)], at + HEADER, chunkSize;
      finalizers, capacity := [], 0;
      blocks := [];
    }

    /** The doubling loop of msgpack_zone_malloc_expand, with its wrap-around test. */
    static method ExpandSize(chunkSize: nat, size: nat) returns (sz: nat)
      requires chunkSize < SIZE_LIMIT && size < SIZE_LIMIT
      ensures sz == ExpandedSize(chunkSize, size)
    {
      sz := chunkSize;
      while sz < size
        invariant sz < SIZE_LIMIT && ExpandedSize(sz, size) == ExpandedSize(chunkSize, size)
        decreases size - sz
      {
        var twice := (sz * 2) % SIZE_LIMIT;
        if twice <= sz {
          sz := size;
          break;
        }
        sz := twice;
      }
    }

    /** What malloc promises for a chunk that is to hold `size` bytes: a word-aligned address of
        memory that is not in use. */
    ghost predicate Fresh(at: Option<nat>, size: nat)
      reads this
      requires chunkSize < SIZE_LIMIT && size < SIZE_LIMIT
    {
      at.Some? ==>
        && at.value % ALIGN == 0
        && forall i :: 0 <= i < |chunks| ==> ChunksApart(Chunk(at.value, ExpandedSize(chunkSize, size)), chunks[i])
    }

    /** msgpack_zone_malloc_expand: a new head chunk whose first `size` bytes are taken; `at` is
        the answer of malloc. */
    method Expand(size: nat, at: Option<nat>) returns (r: Option<nat>)
      requires Valid() && size < SIZE_LIMIT && Fresh(at, size)
      modifies this`chunks, this`ptr, this`free, this`blocks
      ensures Valid() && r == (if at.Some? then Some(at.value + HEADER) else None)
      ensures chunks == if at.Some? then [Chunk(at.value, ExpandedSize(chunkSize, size))] + old(chunks) else old(chunks)
      ensures blocks == if r.Some?
                        then old(blocks) + [Block(r.value, size, Chunk(at.value, ExpandedSize(chunkSize, size)))]
                        else old(blocks)
    {
      var sz := ExpandSize(chunkSize, size);
      if at.None? {
        return None;
      }
      var c := Chunk(at.value, sz);
      PushChunk(blocks, chunks, chunkSize, ptr, c);
      CutBlock(blocks, [c] + chunks, chunkSize, Start(c), Block(Start(c), size, c), Start(c) + size);
      blocks := blocks + [Block(Start(c), size, c)];
      chunks := [c] + chunks;
      free := sz - size;
      ptr := Start(c) + size;
      return Some(Start(c));
    }

    /** Cut `size` bytes off at `addr`, which lies at or after the cursor. */
    method Cut(addr: nat, size: nat)
      requires Valid() && ptr <= addr && addr + size <= ptr + free
      modifies this`ptr, this`free, this`blocks
      ensures Valid() && blocks == old(blocks) + [Block(addr, size, chunks[0])]
    {
      CutBlock(blocks, chunks, chunkSize, ptr, Block(addr, size, chunks[0]), addr + size);
      free := free - (addr + size - ptr);
      ptr := addr + size;
      blocks := blocks + [Block(addr, size, chunks[0])];
    }

    /** msgpack_zone_malloc_no_align: the new block is `size` bytes long and apart from every
        live one (Valid). `at` is what malloc answers if it is called. */
    method MallocNoAlign(size: nat, at: Option<nat>) returns (r: Option<nat>)
      requires Valid() && size < SIZE_LIMIT && Fresh(at, size)
      modifies this`chunks, this`ptr, this`free, this`blocks
      ensures Valid() && (r.None? ==> blocks == old(blocks) && at.None?)
      ensures old(free) >= size ==> r.Some? && chunks == old(chunks)
      ensures r.Some? ==>
                |blocks| == |old(blocks)| + 1 && old(blocks) <= blocks &&
                blocks[|old(blocks)|].addr == r.value && blocks[|old(blocks)|].len == size
    {
      if free < size {
        r := Expand(size, at);
      } else {
        r := Some(ptr);
        Cut(ptr, size);
      }
    }

    /** msgpack_zone_malloc: the same, with a word-aligned address. */
    method Malloc(size: nat, at: Option<nat>) returns (r: Option<nat>)
      requires Valid() && size + (ALIGN - 1) < SIZE_LIMIT && Fresh(at, size + (ALIGN - 1))
      modifies this`chunks, this`ptr, this`free, this`blocks
      ensures Valid() && (r.None? ==> blocks == old(blocks) && at.None?)
      ensures old(free) >= size + (ALIGN - 1) ==> r.Some? && chunks == old(chunks)
      ensures r.Some? ==> r.value % ALIGN == 0 && |blocks| == |old(blocks)| + 1 && old(blocks) <= blocks
                          && blocks[|old(blocks)|].addr == r.value && blocks[|old(blocks)|].len >= size
    {
      var aligned := AlignUp(ptr);
      if free >= size + (aligned - ptr) {
        Cut(aligned, size);
        return Some(aligned);
      }
      r := Expand(size + (ALIGN - 1), at);
      if r.Some? {
        ChunkDataAligned(at.value);
        r := Some(AlignDown(r.value));
      }
    }

    /** msgpack_zone_push_finalizer and its expansion of the array. */
    method PushFinalizer(f: Finalizer, allocates: bool) returns (ok: bool)
      requires Valid()
      modifies this`finalizers, this`capacity
      ensures Valid() && finalizers == if ok then old(finalizers) + [f] else old(finalizers)
      ensures allocates ==> ok
    {
      if |finalizers| == capacity {
        if !allocates {
          return false;
        }
        capacity := if capacity == 0 then 72 / FINALIZER_SIZE else capacity * 2;
      }
      finalizers := finalizers + [f];
      return true;
    }

    /** call_finalizer_array: every finalizer once, the last pushed first. */
    method CallFinalizers() returns (called: seq<Finalizer>)
      ensures called == Reversed(finalizers)
    {
      called := [];
      var fin := |finalizers|;
      assert finalizers[fin..] == [];
      while fin != 0
        invariant 0 <= fin <= |finalizers| && called == Reversed(finalizers[fin..])
      {
        ReversedCons(finalizers, fin - 1);
        called := called + [finalizers[fin - 1]];
        fin := fin - 1;
      }
      assert finalizers[0..] == finalizers;
    }

    /** msgpack_zone_clear: the finalizers run, all chunks but the oldest are freed, and that
        one is empty again. */
    method Clear() returns (called: seq<Finalizer>)
      requires Valid()
      modifies this`chunks, this`ptr, this`free, this`blocks, this`finalizers
      ensures Valid() && called == Reversed(old(finalizers)) && finalizers == [] && blocks == []
      ensures chunks == [old(chunks)[|old(chunks)| - 1]] && free == chunkSize == chunks[0].size
    {
      called := CallFinalizers();
      finalizers := [];
      blocks := [];
      while |chunks| > 1
        invariant ChunksOk(chunks, chunkSize) && chunks[|chunks| - 1] == old(chunks)[|old(chunks)| - 1]
        invariant finalizers == [] && blocks == [] && called == Reversed(old(finalizers))
        decreases |chunks|
      {
        ChunksTail(chunks, chunkSize);
        chunks := chunks[1..];
      }
      free := chunkSize;
      ptr := Start(chunks[0]);
    }
  }

  lemma {:induction false} ChunksTail(chunks: seq<Chunk>, chunkSize: nat)
    requires ChunksOk(chunks, chunkSize) && |chunks| > 1
    ensures ChunksOk(chunks[1..], chunkSize)
  {
    var tail := chunks[1..];
    assert forall i :: 0 <= i < |tail| ==> tail[i] == chunks[i + 1];
  }

  function Reversed<T>(s: seq<T>): seq<T> { if s == [] then [] else Reversed(s[1..]) + [s[0]] }

  lemma {:induction false} ReversedCons<T>(s: seq<T>, i: nat)
    requires i < |s|
    ensures Reversed(s[i..]) == Reversed(s[i + 1..]) + [s[i]]
  {
    assert s[i..][1..] == s[i + 1..];
  }

  /** Reversing keeps every finalizer, once. */
  lemma {:induction false} ReversedSame<T>(s: seq<T>)
    ensures |Reversed(s)| == |s| && multiset(Reversed(s)) == multiset(s)
  {
    if s != [] {
      ReversedSame(s[1..]);
      assert s == [s[0]] + s[1..];
    }
  }
}
