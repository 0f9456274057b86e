/**
 * The VM's memo cache: a byte-packed bitmap and the `Bit` cursor that
 * addresses one bit of it as (byte index, one-bit mask).
 *
 * The bytes are an array updated in place; `Bits()` views them as a sequence
 * of booleans, bit k of byte a being element 8a + k.
 */
module Bitmaps {

  /** The one-bit mask of bit `k` in a byte, `1 << k`. */
  function Mask(k: nat): (m: bv8)
    requires k < 8
  {
    match k
    case 0 => 1 case 1 => 2 case 2 => 4 case 3 => 8
    case 4 => 16 case 5 => 32 case 6 => 64 case _ => 128
  }

  /** Whether bit `k` of byte `x` is set. */
  predicate BitOf(x: bv8, k: nat)
    requires k < 8
  {
    x & Mask(k) != 0
  }

  /** Setting bit `k` changes that bit and no other. */
  lemma SetBitAt(x: bv8, k: nat, j: nat)
    requires k < 8 && j < 8
    ensures BitOf(x | Mask(k), j) == (j == k || BitOf(x, j))
  {
  }

  /** Clearing bit `k` (`&= -1 ^ mask`) changes that bit and no other. */
  lemma ClearBitAt(x: bv8, k: nat, j: nat)
    requires k < 8 && j < 8
    ensures BitOf(x & (0xFF ^ Mask(k)), j) == (j != k && BitOf(x, j))
  {
  }

  /** A byte filled by `memset` with 0xFF or 0x00. */
  function Fill(flag: bool): bv8 {
    if flag then 0xFF else 0x00
  }

  lemma FillBits(flag: bool, k: nat)
    requires k < 8
    ensures BitOf(Fill(flag), k) == flag
  {
  }

  /** A byte sequence as a sequence of booleans, bit k of byte a at 8a + k. */
  function BitsOf(bytes: seq<bv8>): (r: seq<bool>)
    ensures |r| == 8 * |bytes|
    ensures forall i :: 0 <= i < |r| ==> r[i] == BitOf(bytes[i / 8], i % 8)
  {
    seq(8 * |bytes|, i requires 0 <= i < 8 * |bytes| => BitOf(bytes[i / 8], i % 8))
  }

  /** Replacing byte `a` by `y`, which differs from the old byte in bit `k` only, changes bit 8a + k only. */
  lemma {:induction false} BitsOfUpdate(bytes: seq<bv8>, a: nat, k: nat, y: bv8, v: bool)
    requires a < |bytes| && k < 8
    requires forall j :: 0 <= j < 8 ==> BitOf(y, j) == if j == k then v else BitOf(bytes[a], j)
    ensures BitsOf(bytes[a := y]) == BitsOf(bytes)[8 * a + k := v]
  {
    var l, r := BitsOf(bytes[a := y]), BitsOf(bytes)[8 * a + k := v];
    forall i | 0 <= i < |l| ensures l[i] == r[i] {
      if i / 8 == a {
        assert i == 8 * a + i % 8;
      }
    }
  }

  class Bitmap {
    /** `size_`: the number of bits asked for. */
    const size: nat
    /** `s_`: the number of bytes kept, `size / 8 + 1`. */
    const s: nat
    const bits: array<bv8>

    ghost predicate Valid()
      reads this
    {
      s == size / 8 + 1 && bits.Length == s
    }

    /** The bytes as a sequence of 8 * s booleans. */
    ghost function Bits(): (r: seq<bool>)
      reads this, bits
      requires Valid()
      ensures |r| == 8 * s
    {
      BitsOf(bits[..])
    }

    /** `Bitmap(s, i)`: `s / 8 + 1` bytes, every bit equal to `i`. */
    constructor (sz: nat, flag: bool)
      ensures Valid() && size == sz && fresh(bits)
      ensures Bits() == seq(8 * s, _ => flag)
    {
      size := sz;
      s := sz / 8 + 1;
      bits := new bv8[sz / 8 + 1](_ => Fill(flag));
      new;
      forall i | 0 <= i < 8 * s ensures Bits()[i] == flag {
        FillBits(flag, i % 8);
      }
    }

    /** `reset(i)`: every bit becomes `i`. */
    method Reset(flag: bool)
      requires Valid()
      modifies bits
      ensures Valid()
      ensures Bits() == seq(8 * s, _ => flag)
    {
      forall a | 0 <= a < bits.Length {
        bits[a] := Fill(flag);
      }
      forall i | 0 <= i < 8 * s ensures Bits()[i] == flag {
        FillBits(flag, i % 8);
      }
    }

    /** `operator[](i)`: byte `i / 8`, mask `1 << (i % 8)`, for an index up to the end position. */
    function At(i: nat): (b: Bit)
      requires i <= size
      ensures b.bitmap == this && Aligned(b) && Index(b) == i
    {
      Bit(this, i / 8, Mask(i % 8))
    }

    /** `begin()`: byte 0, mask 1 — bit index 0. */
    function Begin(): (b: Bit)
      ensures b.bitmap == this && Aligned(b) && Index(b) == 0
    {
      Bit(this, 0, 1)
    }

    /** `end()`: the cursor of bit index `size`, one past the last bit asked for. */
    function End(): (b: Bit)
      ensures b.bitmap == this && Aligned(b) && Index(b) == size
    {
      Bit(this, size / 8, Mask(size % 8))
    }
  }

  /** The cursor: the bitmap it belongs to, a byte index and a mask. */
  datatype Bit = Bit(bitmap: Bitmap, a: int, c: bv8)

  /** Which bit of the byte a one-bit mask selects. */
  function MaskBit(c: bv8): (k: nat)
    ensures k < 8
  {
    if c == 1 then 0 else if c == 2 then 1 else if c == 4 then 2 else if c == 8 then 3
    else if c == 16 then 4 else if c == 32 then 5 else if c == 64 then 6 else 7
  }

  /** Every cursor a bitmap hands out has a non-negative byte index and a one-bit mask. */
  predicate Aligned(b: Bit) {
    b.a >= 0 && b.c == Mask(MaskBit(b.c))
  }

  /** The bit index a cursor stands for. */
  function Index(b: Bit): int {
    b.a * 8 + MaskBit(b.c)
  }

  /** The cursor lies on a bit the bitmap stores. */
  ghost predicate InBounds(b: Bit)
    reads b.bitmap
  {
    b.bitmap.Valid() && Aligned(b) && b.a < b.bitmap.s
  }

  /** Reading a cursor (`operator bool`) is reading its bit of `Bits()`. */
  function Get(b: Bit): (r: bool)
    reads b.bitmap, b.bitmap.bits
    requires InBounds(b)
    ensures r == b.bitmap.Bits()[Index(b)]
  {
    BitOf(b.bitmap.bits[b.a], MaskBit(b.c))
  }

  /** `operator=(v)`: that bit reads back as `v` and every other bit is unchanged. */
  method Assign(b: Bit, v: bool)
    requires InBounds(b)
    modifies b.bitmap.bits
    ensures b.bitmap.Bits() == old(b.bitmap.Bits())[Index(b) := v]
  {
    var bm := b.bitmap;
    var x := bm.bits[b.a];
    var k := MaskBit(b.c);
    var y := if v then x | b.c else x & (0xFF ^ b.c);
    forall j | 0 <= j < 8 ensures BitOf(y, j) == if j == k then v else BitOf(x, j) {
      if v { SetBitAt(x, k, j); } else { ClearBitAt(x, k, j); }
    }
    BitsOfUpdate(bm.bits[..], b.a, k, y, v);
    bm.bits[b.a] := y;
    assert bm.bits[..] == old(bm.bits[..])[b.a := y];
  }

  /** `operator++`: shift the mask left; on carry out of 0x80 restart at mask 1 of the next byte. */
  function Inc(b: Bit): (r: Bit)
    requires Aligned(b)
    ensures r.bitmap == b.bitmap && Aligned(r) && Index(r) == Index(b) + 1
  {
    var c := b.c << 1;
    if c < b.c then Bit(b.bitmap, b.a + 1, c | 1) else Bit(b.bitmap, b.a, c)
  }

  /** Post-increment: yields the cursor as it was and the advanced cursor. */
  function PostInc(b: Bit): (r: (Bit, Bit))
    requires Aligned(b)
    ensures r.0 == b && Index(r.1) == Index(b) + 1 && Aligned(r.1)
  {
    (b, Inc(b))
  }

  /** `operator+=(n)`: n single increments, none for n <= 0. */
  method AddAssign(b: Bit, n: int) returns (r: Bit)
    requires Aligned(b)
    ensures r.bitmap == b.bitmap && Aligned(r)
    ensures Index(r) == Index(b) + (if n > 0 then n else 0)
  {
    r := b;
    var k := n;
    while k > 0
      invariant r.bitmap == b.bitmap && Aligned(r)
      invariant Index(r) == Index(b) + (if n > 0 then n - k else 0)
      invariant k <= 0 ==> k == n || k == 0
    {
      r := Inc(r);
      k := k - 1;
    }
  }

  /** `operator==`: same bitmap, byte and mask. */
  predicate Equal(x: Bit, y: Bit) {
    x.bitmap == y.bitmap && x.a == y.a && x.c == y.c
  }

  /** `operator>`: byte index first, then mask. */
  predicate Greater(x: Bit, y: Bit)
    requires x.bitmap == y.bitmap
  {
    x.a > y.a || (x.a == y.a && x.c > y.c)
  }

  /** `operator<=`: not greater. */
  predicate LessEq(x: Bit, y: Bit)
    requires x.bitmap == y.bitmap
  {
    !Greater(x, y)
  }

  /** The order of cursors is the order of their bit indexes; equality is equality of indexes. */
  lemma OrderIsIndexOrder(x: Bit, y: Bit)
    requires x.bitmap == y.bitmap && Aligned(x) && Aligned(y)
    ensures Greater(x, y) <==> Index(x) > Index(y)
    ensures LessEq(x, y) <==> Index(x) <= Index(y)
    ensures Equal(x, y) <==> Index(x) == Index(y)
  {
  }

  /** Advancing the cursor of index i by k lands on the cursor of index i + k. */
  lemma AdvanceAt(bm: Bitmap, i: nat, k: nat, r: Bit)
    requires i + k <= bm.size
    requires r.bitmap == bm && Aligned(r) && Index(r) == i + k
    ensures Equal(r, bm.At(i + k))
  {
    OrderIsIndexOrder(r, bm.At(i + k));
  }

  /**
   * Walking from `begin()` with `++` meets `end()` after exactly `size()`
   * steps and not before: the k-th cursor equals `end()` iff k == size.
   */
  lemma BeginToEnd(bm: Bitmap, k: nat, r: Bit)
    requires r.bitmap == bm && Aligned(r) && Index(r) == Index(bm.Begin()) + k
    ensures Equal(r, bm.End()) <==> k == bm.size
  {
    OrderIsIndexOrder(r, bm.End());
  }

  /** With `s = size / 8 + 1` bytes, every index up to and including `size` is stored. */
  lemma EndIsStored(bm: Bitmap, i: nat)
    requires bm.Valid() && i <= bm.size
    ensures InBounds(bm.At(i))
  {
  }

  /** The index guard of `operator[]` as written: `size_ * 8 >= i`. */
  predicate IndexGuardAsWritten(size: int, i: int) {
    size * 8 >= i
  }

  /** The guard of the read and the write as written: `s_ >= a_`. */
  predicate ByteGuardAsWritten(s: int, a: int) {
    s >= a
  }

  /**
   * As written, the two guards let a read through one byte past the buffer:
   * a 16-bit bitmap keeps 3 bytes, index 24 passes `16 * 8 >= 24`, and its byte 3
   * passes `3 >= 3`.
   */
  lemma GuardsAdmitByteOutOfBounds()
    ensures var size, i := 16, 24;
      IndexGuardAsWritten(size, i) && ByteGuardAsWritten(size / 8 + 1, i / 8) && i / 8 >= size / 8 + 1
  {
  }
}
