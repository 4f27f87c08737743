/**
 * Bytes and the two fixed-size fields of the track file: the `struct` codes
 * 'I' (unsigned 32-bit integer) and 'd' (IEEE 754 binary64), fixed here to
 * their little-endian layout.
 */
module Bytes {

  type byte = x: int | 0 <= x < 256

  const TWO_32: int := 0x1_0000_0000

  /** What `struct.pack('I', n)` accepts. */
  predicate IsU32(n: int) {
    0 <= n < TWO_32
  }

  /** `struct.pack('I', n)`: four bytes, least significant first. */
  function PackU32(n: int): (r: seq<byte>)
    requires IsU32(n)
    ensures |r| == 4
  {
    [n % 256, (n / 256) % 256, (n / 65536) % 256, n / 16777216]
  }

  /** `struct.unpack('I', b)[0]` for exactly four bytes. */
  function UnpackU32(b: seq<byte>): (n: int)
    requires |b| == 4
    ensures IsU32(n)
  {
    var b0, b1, b2, b3: int := b[0], b[1], b[2], b[3];
    ((b3 * 256 + b2) * 256 + b1) * 256 + b0
  }

  lemma DivMod256(q: int, r: int)
    requires 0 <= q && 0 <= r < 256
    ensures (q * 256 + r) / 256 == q && (q * 256 + r) % 256 == r
  {
  }

  lemma Split256(n: int)
    requires 0 <= n
    ensures n == (n / 256) * 256 + n % 256
    ensures n / 65536 == (n / 256) / 256
    ensures n / 16777216 == (n / 65536) / 256
  {
  }

  lemma UnpackPackU32(n: int)
    requires IsU32(n)
    ensures UnpackU32(PackU32(n)) == n
  {
    Split256(n);
    Split256(n / 256);
    Split256(n / 65536);
  }

  lemma PackUnpackU32(b: seq<byte>)
    requires |b| == 4
    ensures PackU32(UnpackU32(b)) == b
  {
    var b0, b1, b2, b3: int := b[0], b[1], b[2], b[3];
    DivMod256(b3, b2);
    DivMod256(b3 * 256 + b2, b1);
    DivMod256((b3 * 256 + b2) * 256 + b1, b0);
    var n := ((b3 * 256 + b2) * 256 + b1) * 256 + b0;
    Split256(n);
    Split256(n / 256);
  }

  /**
   * A binary64 value as its eight stored bytes. The codec only copies these
   * bytes, so the floating-point value behind them is left opaque.
   */
  type Float64 = b: seq<byte> | |b| == 8 witness [0, 0, 0, 0, 0, 0, 0, 0]

  /** `data[lo..hi]`, built one byte at a time. */
  function Slice(data: seq<byte>, lo: nat, hi: nat): (r: seq<byte>)
    requires lo <= hi <= |data|
    ensures |r| == hi - lo
    decreases hi - lo
  {
    if lo == hi then [] else Slice(data, lo, hi - 1) + [data[hi - 1]]
  }

  lemma {:induction false} SliceIsSubsequence(data: seq<byte>, lo: nat, hi: nat)
    requires lo <= hi <= |data|
    ensures Slice(data, lo, hi) == data[lo..hi]
    decreases hi - lo
  {
    if lo < hi {
      SliceIsSubsequence(data, lo, hi - 1);
      assert data[lo..hi] == data[lo..hi - 1] + [data[hi - 1]];
    }
  }

  /** Consecutive slices make up the slice that spans them. */
  lemma {:induction false} SliceSplit(data: seq<byte>, lo: nat, mid: nat, hi: nat)
    requires lo <= mid <= hi <= |data|
    ensures Slice(data, lo, hi) == Slice(data, lo, mid) + Slice(data, mid, hi)
    decreases hi - mid
  {
    if mid < hi {
      SliceSplit(data, lo, mid, hi - 1);
    }
  }

  /** The bytes at `pos` that `f.read(n)` returns: fewer than `n` at the end of the data. */
  function Take(data: seq<byte>, pos: nat, n: nat): (r: seq<byte>)
    requires pos <= |data|
    ensures |r| == if pos + n <= |data| then n else |data| - pos
  {
    Slice(data, pos, if pos + n <= |data| then pos + n else |data|)
  }

  /** What `f.read(n)` returns is the slice of the data at the cursor. */
  lemma TakeIsSlice(data: seq<byte>, pos: nat, n: nat)
    requires pos <= |data|
    ensures Take(data, pos, n) == data[pos..pos + |Take(data, pos, n)|]
  {
    SliceIsSubsequence(data, pos, pos + |Take(data, pos, n)|);
  }
}
