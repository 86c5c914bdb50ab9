/** MessagePack objects and their encoding by the packer (pack_template.h, objectc.c). */
module MsgObject {

  type byte = x: int | 0 <= x < 256

  // ----- big-endian integers

  function Pow256(n: nat): (r: nat)
    ensures r >= 1
  {
    if n == 0 then 1 else 256 * Pow256(n - 1)
  }

  /** `n` in `w` bytes, most significant first (the _msgpack_store macros). */
  function Store(n: nat, w: nat): (r: seq<byte>)
    ensures |r| == w
  {
    if w == 0 then [] else Store(n / 256, w - 1) + [n % 256]
  }

  /** The number in `bs`, most significant byte first (the _msgpack_load macros). */
  function Load(bs: seq<byte>): (r: nat)
    ensures r < Pow256(|bs|)
  {
    if bs == [] then 0 else 256 * Load(bs[..|bs| - 1]) + bs[|bs| - 1]
  }

  lemma {:induction false} LoadStore(n: nat, w: nat)
    requires n < Pow256(w)
    ensures Load(Store(n, w)) == n
  {
    if w > 0 {
      LoadStore(n / 256, w - 1);
      assert Store(n, w)[..w - 1] == Store(n / 256, w - 1);
    }
  }

  /** Two's complement in `w` bytes. */
  function Signed(u: nat, w: nat): int {
    if 2 * u < Pow256(w) then u else u - Pow256(w)
  }

  function Unsigned(i: int, w: nat): (r: nat)
    requires -1 * Pow256(w) <= 2 * i < Pow256(w)
    ensures r < Pow256(w)
  {
    if i >= 0 then i else i + Pow256(w)
  }

  lemma {:induction false} SignedUnsigned(i: int, w: nat)
    requires -1 * Pow256(w) <= 2 * i < Pow256(w)
    ensures Signed(Unsigned(i, w), w) == i
  {}

  lemma {:induction false} PowersOf256()
    ensures Pow256(1) == 0x100 && Pow256(2) == 0x1_0000 && Pow256(4) == 0x1_0000_0000
    ensures Pow256(8) == 0x1_0000_0000_0000_0000
  {
    assert Pow256(3) == 0x100_0000;
    assert Pow256(5) == 0x100_0000_0000 && Pow256(6) == 0x1_0000_0000_0000 && Pow256(7) == 0x100_0000_0000_0000;
  }

  // ----- objects

  datatype Obj =
    | Nil
    | Bool(b: bool)
    | PosInt(u: nat)
    | NegInt(i: int)
    | Float32(bits: nat)
    | Float64(bits: nat)
    | Str(s: seq<byte>)
    | Bin(s: seq<byte>)
    | Ext(typ: int, s: seq<byte>)
    | Arr(items: seq<Obj>)
    | Map(entries: seq<Entry>)

  datatype Entry = Entry(key: Obj, val: Obj)

  const LIMIT32 := 0x1_0000_0000
  const LIMIT64 := 0x1_0000_0000_0000_0000

  /** What the C structure can hold: 64-bit integers, a sign matching the type, 32-bit sizes. */
  predicate WellFormed(o: Obj) {
    match o
    case Nil => true
    case Bool(_) => true
    case PosInt(u) => u < LIMIT64
    case NegInt(i) => -LIMIT64 <= 2 * i < 0
    case Float32(b) => b < LIMIT32
    case Float64(b) => b < LIMIT64
    case Str(s) => |s| < LIMIT32
    case Bin(s) => |s| < LIMIT32
    case Ext(t, s) => -128 <= t < 128 && |s| < LIMIT32
    case Arr(xs) => |xs| < LIMIT32 && forall k :: 0 <= k < |xs| ==> WellFormed(xs[k])
    case Map(es) => |es| < LIMIT32 && forall k :: 0 <= k < |es| ==> WellFormed(es[k].key) && WellFormed(es[k].val)
  }

  // ----- the encoders

  function PackUint(u: nat): seq<byte>
    requires u < LIMIT64
  {
    if u < 0x80 then [u]
    else if u < 0x100 then [0xcc] + Store(u, 1)
    else if u < 0x1_0000 then [0xcd] + Store(u, 2)
    else if u < LIMIT32 then [0xce] + Store(u, 4)
    else [0xcf] + Store(u, 8)
  }

  /** msgpack_pack_int64 on a negative value. */
  function PackNegative(i: int): seq<byte>
    requires -LIMIT64 <= 2 * i < 0
  {
    PowersOf256();
    if i >= -0x20 then [i + 0x100]
    else if i >= -0x80 then [0xd0] + Store(Unsigned(i, 1), 1)
    else if i >= -0x8000 then [0xd1] + Store(Unsigned(i, 2), 2)
    else if i >= -0x8000_0000 then [0xd2] + Store(Unsigned(i, 4), 4)
    else [0xd3] + Store(Unsigned(i, 8), 8)
  }

  function StrHeader(l: nat): seq<byte>
    requires l < LIMIT32
  {
    if l < 32 then [0xa0 + l]
    else if l < 0x100 then [0xd9] + Store(l, 1)
    else if l < 0x1_0000 then [0xda] + Store(l, 2)
    else [0xdb] + Store(l, 4)
  }

  function BinHeader(l: nat): seq<byte>
    requires l < LIMIT32
  {
    if l < 0x100 then [0xc4] + Store(l, 1)
    else if l < 0x1_0000 then [0xc5] + Store(l, 2)
    else [0xc6] + Store(l, 4)
  }

  function TypeByte(t: int): byte
    requires -128 <= t < 128
  {
    if t >= 0 then t else t + 256
  }

  function TypeOf(b: byte): int { if b < 128 then b else b - 256 }

  /** The extension header, without the type byte that follows it. */
  function ExtHeader(l: nat): seq<byte>
    requires l < LIMIT32
  {
    if l == 1 then [0xd4]
    else if l == 2 then [0xd5]
    else if l == 4 then [0xd6]
    else if l == 8 then [0xd7]
    else if l == 16 then [0xd8]
    else if l < 0x100 then [0xc7] + Store(l, 1)
    else if l < 0x1_0000 then [0xc8] + Store(l, 2)
    else [0xc9] + Store(l, 4)
  }

  function ArrHeader(n: nat): seq<byte>
    requires n < LIMIT32
  {
    if n < 16 then [0x90 + n] else if n < 0x1_0000 then [0xdc] + Store(n, 2) else [0xdd] + Store(n, 4)
  }

  function MapHeader(n: nat): seq<byte>
    requires n < LIMIT32
  {
    if n < 16 then [0x80 + n] else if n < 0x1_0000 then [0xde] + Store(n, 2) else [0xdf] + Store(n, 4)
  }

  /** msgpack_pack_object. */
  function Pack(o: Obj): (r: seq<byte>)
    requires WellFormed(o)
    ensures |r| >= 1
    decreases o, 1
  {
    match o
    case Nil => [0xc0]
    case Bool(b) => if b then [0xc3] else [0xc2]
    case PosInt(u) => PackUint(u)
    case NegInt(i) => PackNegative(i)
    case Float32(b) => [0xca] + Store(b, 4)
    case Float64(b) => [0xcb] + Store(b, 8)
    case Str(s) => StrHeader(|s|) + s
    case Bin(s) => BinHeader(|s|) + s
    case Ext(t, s) => ExtHeader(|s|) + ([TypeByte(t)] + s)
    case Arr(xs) => ArrHeader(|xs|) + PackItems(xs)
    case Map(es) => MapHeader(|es|) + PackEntries(es)
  }

  function PackItems(xs: seq<Obj>): seq<byte>
    requires forall k :: 0 <= k < |xs| ==> WellFormed(xs[k])
    decreases xs, 0
  {
    if xs == [] then [] else Pack(xs[0]) + PackItems(xs[1..])
  }

  function PackEntries(es: seq<Entry>): seq<byte>
    requires forall k :: 0 <= k < |es| ==> WellFormed(es[k].key) && WellFormed(es[k].val)
    decreases es, 0
  {
    if es == [] then [] else PackEntry(es[0]) + PackEntries(es[1..])
  }

  function PackEntry(e: Entry): seq<byte>
    requires WellFormed(e.key) && WellFormed(e.val)
    decreases e, 0
  {
    Pack(e.key) + Pack(e.val)
  }
}
