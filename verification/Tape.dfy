/**
 * The tapes of the uniprocessor library: rings of bytes whose positions are advanced by one item
 * before each use, and the block copy between two tapes that stands for a run of single-item copies.
 */
module Tapes {
  import Bits

  type byte = x: int | 0 <= x < 256

  // ---- Rings ----

  /** An index within one turn of a ring. */
  function Ring(x: nat, length: nat): (r: nat)
    requires x < 2 * length
    ensures r < length
  {
    if x < length then x else x - length
  }

  /** m elements from index a on. */
  function RingRead<T>(c: seq<T>, a: nat, m: nat): (r: seq<T>)
    requires a < |c| && m <= |c|
    ensures |r| == m
    ensures forall j | 0 <= j < m :: r[j] == c[Ring(a + j, |c|)]
  {
    seq(m, j requires 0 <= j < m => c[Ring(a + j, |c|)])
  }

  /** How far index i is behind index b. */
  function Offset(i: nat, b: nat, length: nat): nat
    requires i < length && b < length
  {
    if i >= b then i - b else i + length - b
  }

  /** The ring with x written from index b on. */
  function RingWrite<T>(c: seq<T>, b: nat, x: seq<T>): (r: seq<T>)
    requires b < |c| && |x| <= |c|
    ensures |r| == |c|
    ensures forall i | 0 <= i < |c| :: r[i] == if Offset(i, b, |c|) < |x| then x[Offset(i, b, |c|)] else c[i]
  {
    seq(|c|, i requires 0 <= i < |c| => if Offset(i, b, |c|) < |x| then x[Offset(i, b, |c|)] else c[i])
  }

  lemma RingWriteMore<T>(c: seq<T>, b: nat, x: seq<T>, y: seq<T>)
    requires b < |c| && |x| + |y| <= |c| && |x| < |c|
    ensures RingWrite(RingWrite(c, b, x), Ring(b + |x|, |c|), y) == RingWrite(c, b, x + y)
  {
  }

  lemma RingReadMore<T>(c: seq<T>, a: nat, m: nat, k: nat)
    requires a < |c| && m + k <= |c| && m < |c|
    ensures RingRead(c, a, m) + RingRead(c, Ring(a + m, |c|), k) == RingRead(c, a, m + k)
  {
  }

  // ---- Plain copies ----

  /** c is was with m elements of src, from index a on, put at index b. */
  ghost predicate Placed<T>(was: seq<T>, c: seq<T>, src: seq<T>, b: nat, a: nat, m: nat) {
    && |c| == |was| && b + m <= |was| && a + m <= |src|
    && forall k | 0 <= k < |was| :: c[k] == if b <= k < b + m then src[a + k - b] else was[k]
  }

  method MemCpy(dst: array<byte>, b: nat, src: array<byte>, a: nat, m: nat)
    requires dst != src && b + m <= dst.Length && a + m <= src.Length
    modifies dst
    ensures Placed(old(dst[..]), dst[..], src[..], b, a, m)
  {
    var i := 0;
    while i < m
      invariant 0 <= i <= m && Placed(old(dst[..]), dst[..], src[..], b, a, i)
    {
      dst[b + i] := src[a + i];
      i := i + 1;
    }
  }

  // The ways a block of n elements can lie on two rings.

  lemma OnePiece<T>(was: seq<T>, c: seq<T>, src: seq<T>, b: nat, a: nat, n: nat)
    requires a < |src| && b < |was| && a + n <= |src| && b + n <= |was|
    requires Placed(was, c, src, b, a, n)
    ensures c == RingWrite(was, b, RingRead(src, a, n))
  {
  }

  lemma WriteWraps<T>(was: seq<T>, c1: seq<T>, c: seq<T>, src: seq<T>, b: nat, a: nat, n: nat)
    requires a < |src| && b < |was| && a + n <= |src| && b + n > |was| && n <= |was|
    requires Placed(was, c1, src, b, a, |was| - b) && Placed(c1, c, src, 0, a + |was| - b, n - (|was| - b))
    ensures c == RingWrite(was, b, RingRead(src, a, n))
  {
  }

  lemma ReadWraps<T>(was: seq<T>, c1: seq<T>, c: seq<T>, src: seq<T>, b: nat, a: nat, n: nat)
    requires a < |src| && b < |was| && a + n > |src| && b + n <= |was| && n <= |src|
    requires Placed(was, c1, src, b, a, |src| - a) && Placed(c1, c, src, b + |src| - a, 0, n - (|src| - a))
    ensures c == RingWrite(was, b, RingRead(src, a, n))
  {
  }

  lemma ReadWrapsFirst<T>(was: seq<T>, c1: seq<T>, c2: seq<T>, c: seq<T>, src: seq<T>, b: nat, a: nat, n: nat)
    requires a < |src| && b < |was| && a + n > |src| && b + n > |was| && n <= |src| && n <= |was|
    requires |was| - b > |src| - a
    requires Placed(was, c1, src, b, a, |src| - a)
    requires Placed(c1, c2, src, b + |src| - a, 0, |was| - b - (|src| - a))
    requires Placed(c2, c, src, 0, |was| - b - (|src| - a), n - (|was| - b))
    ensures c == RingWrite(was, b, RingRead(src, a, n))
  {
  }

  lemma WriteWrapsFirst<T>(was: seq<T>, c1: seq<T>, c2: seq<T>, c: seq<T>, src: seq<T>, b: nat, a: nat, n: nat)
    requires a < |src| && b < |was| && a + n > |src| && b + n > |was| && n <= |src| && n <= |was|
    requires |was| - b <= |src| - a
    requires Placed(was, c1, src, b, a, |was| - b)
    requires Placed(c1, c2, src, 0, a + |was| - b, |src| - a - (|was| - b))
    requires Placed(c2, c, src, |src| - a - (|was| - b), 0, n - (|src| - a))
    ensures c == RingWrite(was, b, RingRead(src, a, n))
  {
  }

  // ---- Single-item steps ----

  /** One end of a tape: its bytes and the position of the item last read or written. */
  datatype Side = Side(data: seq<byte>, pos: nat)

  /** Both positions advance by one item, then its bytes are copied. */
  function ItemStep(src: Side, dst: Side, size: nat): (r: (Side, Side))
    requires src.pos < |src.data| && dst.pos < |dst.data| && size <= |src.data| && size <= |dst.data|
    ensures r.0.pos < |r.0.data| == |src.data| && r.1.pos < |r.1.data| == |dst.data|
  {
    var a, b := Ring(src.pos + size, |src.data|), Ring(dst.pos + size, |dst.data|);
    (Side(src.data, a), Side(RingWrite(dst.data, b, RingRead(src.data, a, size)), b))
  }

  function ItemSteps(src: Side, dst: Side, size: nat, k: nat): (r: (Side, Side))
    requires src.pos < |src.data| && dst.pos < |dst.data| && size <= |src.data| && size <= |dst.data|
    ensures r.0.pos < |r.0.data| == |src.data| && r.1.pos < |r.1.data| == |dst.data|
  {
    if k == 0 then (src, dst)
    else
      var (s, d) := ItemSteps(src, dst, size, k - 1);
      ItemStep(s, d, size)
  }

  /** A block of n bytes moved from the one ring to the other. */
  function BlockMoved(src: Side, dst: Side, size: nat, n: nat): (Side, Side)
    requires src.pos < |src.data| && dst.pos < |dst.data| && size <= |src.data| && size <= |dst.data|
    requires n <= |src.data| && n <= |dst.data|
  {
    var a, b := Ring(src.pos + size, |src.data|), Ring(dst.pos + size, |dst.data|);
    (Side(src.data, Ring(src.pos + n, |src.data|)),
     Side(RingWrite(dst.data, b, RingRead(src.data, a, n)), Ring(dst.pos + n, |dst.data|)))
  }

  lemma StepAfterBlock(src: Side, dst: Side, size: nat, n: nat)
    requires src.pos < |src.data| && dst.pos < |dst.data| && 0 < size
    requires n + size <= |src.data| && n + size <= |dst.data|
    ensures var (s, d) := BlockMoved(src, dst, size, n); ItemStep(s, d, size) == BlockMoved(src, dst, size, n + size)
  {
    var c, e := src.data, dst.data;
    var a, b := Ring(src.pos + size, |c|), Ring(dst.pos + size, |e|);
    RingWriteMore(e, b, RingRead(c, a, n), RingRead(c, Ring(a + n, |c|), size));
    RingReadMore(c, a, n, size);
  }

  /** A run of k single-item steps moves a block of k items. */
  lemma {:induction false} StepsMoveBlock(src: Side, dst: Side, size: nat, k: nat, n: nat)
    requires src.pos < |src.data| && dst.pos < |dst.data| && 0 < size <= |src.data| && size <= |dst.data|
    requires n == k * size && n <= |src.data| && n <= |dst.data|
    ensures ItemSteps(src, dst, size, k) == BlockMoved(src, dst, size, n)
  {
    if k == 0 {
      var b := Ring(dst.pos + size, |dst.data|);
      assert RingWrite(dst.data, b, []) == dst.data && RingRead(src.data, Ring(src.pos + size, |src.data|), 0) == [];
    } else {
      assert (k - 1) * size == n - size;
      StepsMoveBlock(src, dst, size, k - 1, n - size);
      StepAfterBlock(src, dst, size, n - size);
    }
  }

  // ---- Positions are whole items ----

  /** x is a whole number of items. (The unused parameter keeps the remainder out of proofs that do not need it.) */
  ghost predicate Aligned(x: int, size: nat)
    requires size > 0
  {
    forall u: nat :: AlignedAt(u, x, size)
  }

  ghost predicate AlignedAt(unused: nat, x: int, size: nat)
    requires size > 0
  {
    x % size == 0
  }

  lemma AlignedSum(x: int, y: int, size: nat)
    requires size > 0 && Aligned(x, size) && Aligned(y, size)
    ensures Aligned(x + y, size) && Aligned(x - y, size)
  {
    assert AlignedAt(0, x, size) && AlignedAt(0, y, size);
    var p, q := x / size, y / size;
    assert x + y == size * (p + q) && x - y == size * (p - q);
    Bits.ModUnique(x + y, size, p + q, 0);
    Bits.ModUnique(x - y, size, p - q, 0);
  }

  /** Different whole numbers of items are at least one item apart. */
  lemma AlignedGap(x: int, y: int, size: nat)
    requires size > 0 && Aligned(x, size) && Aligned(y, size) && x < y
    ensures x + size <= y
  {
    AlignedSum(y, x, size);
    var d := y - x;
    assert AlignedAt(0, d, size);
    assert d == size * (d / size);
    Bits.MulBounds(size, d / size);
  }

  lemma AlignedProduct(k: nat, size: nat)
    requires size > 0
    ensures Aligned(k * size, size) && (k > 0 ==> k * size >= size)
  {
  }

  lemma AlignedRing(pos: nat, n: nat, length: nat, size: nat)
    requires size > 0 && Aligned(pos, size) && Aligned(n, size) && Aligned(length, size) && pos + n < 2 * length
    ensures Aligned(Ring(pos + n, length), size)
  {
    AlignedSum(pos, n, size);
    AlignedSum(pos + n, length, size);
  }

  // ---- The block copy ----

  /** From the positions of the block's first item; returns those of its last. */
  method CopyBlock(dst: array<byte>, b: nat, src: array<byte>, a: nat, n: nat, size: nat) returns (r: int, w: int)
    requires dst != src && a < src.Length && b < dst.Length && size <= n <= src.Length && n <= dst.Length
    requires size > 0 && Aligned(a, size) && Aligned(b, size) && Aligned(n, size) && Aligned(src.Length, size)
             && Aligned(dst.Length, size)
    modifies dst
    ensures dst[..] == RingWrite(old(dst[..]), b, RingRead(src[..], a, n))
    ensures r == Ring(a + n - size, src.Length) && w == Ring(b + n - size, dst.Length)
  {
    AlignedSum(a, n, size);
    AlignedSum(b, n, size);
    if a + n > src.Length { AlignedGap(src.Length, a + n, size); }
    if b + n > dst.Length { AlignedGap(dst.Length, b + n, size); }
    if a + n <= src.Length {
      if b + n <= dst.Length {
        r, w := CopyWhole(dst, b, src, a, n, size);
      } else {
        r, w := CopyBreakingWrite(dst, b, src, a, n, size);
      }
    } else if b + n <= dst.Length {
      r, w := CopyBreakingRead(dst, b, src, a, n, size);
    } else if dst.Length - b > src.Length - a {
      r, w := CopyBreakingReadFirst(dst, b, src, a, n, size);
    } else {
      r, w := CopyBreakingWriteFirst(dst, b, src, a, n, size);
    }
  }

  /** No tape is broken. */
  method CopyWhole(dst: array<byte>, b: nat, src: array<byte>, a: nat, n: nat, size: nat) returns (r: int, w: int)
    requires dst != src && a < src.Length && b < dst.Length && size <= n <= src.Length && n <= dst.Length
    requires a + n <= src.Length && b + n <= dst.Length && 0 < size
    modifies dst
    ensures dst[..] == RingWrite(old(dst[..]), b, RingRead(src[..], a, n))
    ensures r == Ring(a + n - size, src.Length) && w == Ring(b + n - size, dst.Length)
  {
    ghost var was := dst[..];
    MemCpy(dst, b, src, a, n);
    OnePiece(was, dst[..], src[..], b, a, n);
    return a + n - size, b + n - size;
  }

  /** The write tape is broken. */
  method CopyBreakingWrite(dst: array<byte>, b: nat, src: array<byte>, a: nat, n: nat, size: nat)
    returns (r: int, w: int)
    requires dst != src && a < src.Length && b < dst.Length && size <= n <= src.Length && n <= dst.Length
    requires a + n <= src.Length && b + n >= dst.Length + size && 0 < size
    modifies dst
    ensures dst[..] == RingWrite(old(dst[..]), b, RingRead(src[..], a, n))
    ensures r == Ring(a + n - size, src.Length) && w == Ring(b + n - size, dst.Length)
  {
    ghost var was := dst[..];
    var copyFirst := dst.Length - b;
    MemCpy(dst, b, src, a, copyFirst);
    ghost var c1 := dst[..];
    MemCpy(dst, 0, src, a + copyFirst, n - copyFirst);
    WriteWraps(was, c1, dst[..], src[..], b, a, n);
    return a + n - size, n - copyFirst - size;
  }

  /** The read tape is broken. */
  method CopyBreakingRead(dst: array<byte>, b: nat, src: array<byte>, a: nat, n: nat, size: nat)
    returns (r: int, w: int)
    requires dst != src && a < src.Length && b < dst.Length && size <= n <= src.Length && n <= dst.Length
    requires a + n >= src.Length + size && b + n <= dst.Length && 0 < size
    modifies dst
    ensures dst[..] == RingWrite(old(dst[..]), b, RingRead(src[..], a, n))
    ensures r == Ring(a + n - size, src.Length) && w == Ring(b + n - size, dst.Length)
  {
    ghost var was := dst[..];
    var copyFirst := src.Length - a;
    MemCpy(dst, b, src, a, copyFirst);
    ghost var c1 := dst[..];
    MemCpy(dst, b + copyFirst, src, 0, n - copyFirst);
    ReadWraps(was, c1, dst[..], src[..], b, a, n);
    return n - copyFirst - size, b + n - size;
  }

  /** Both are broken, the read tape first. */
  method CopyBreakingReadFirst(dst: array<byte>, b: nat, src: array<byte>, a: nat, n: nat, size: nat)
    returns (r: int, w: int)
    requires dst != src && a < src.Length && b < dst.Length && size <= n <= src.Length && n <= dst.Length
    requires a + n >= src.Length + size && b + n >= dst.Length + size && dst.Length - b > src.Length - a && 0 < size
    modifies dst
    ensures dst[..] == RingWrite(old(dst[..]), b, RingRead(src[..], a, n))
    ensures r == Ring(a + n - size, src.Length) && w == Ring(b + n - size, dst.Length)
  {
    ghost var was := dst[..];
    var copyFirst := src.Length - a;
    MemCpy(dst, b, src, a, copyFirst);
    ghost var c1 := dst[..];
    var copySecond := dst.Length - b - copyFirst;
    MemCpy(dst, b + copyFirst, src, 0, copySecond);
    ghost var c2 := dst[..];
    var copyThird := n - copySecond - copyFirst;
    MemCpy(dst, 0, src, copySecond, copyThird);
    ReadWrapsFirst(was, c1, c2, dst[..], src[..], b, a, n);
    return copySecond + copyThird - size, copyThird - size;
  }

  /** Both are broken, the write tape first or at the same item. */
  method CopyBreakingWriteFirst(dst: array<byte>, b: nat, src: array<byte>, a: nat, n: nat, size: nat)
    returns (r: int, w: int)
    requires dst != src && a < src.Length && b < dst.Length && size <= n <= src.Length && n <= dst.Length
    requires a + n >= src.Length + size && b + n >= dst.Length + size && dst.Length - b <= src.Length - a && 0 < size
    modifies dst
    ensures dst[..] == RingWrite(old(dst[..]), b, RingRead(src[..], a, n))
    ensures r == Ring(a + n - size, src.Length) && w == Ring(b + n - size, dst.Length)
  {
    ghost var was := dst[..];
    var copyFirst := dst.Length - b;
    MemCpy(dst, b, src, a, copyFirst);
    ghost var c1 := dst[..];
    var copySecond := src.Length - a - copyFirst;
    MemCpy(dst, 0, src, a + copyFirst, copySecond);
    ghost var c2 := dst[..];
    var copyThird := n - copyFirst - copySecond;
    MemCpy(dst, copySecond, src, 0, copyThird);
    WriteWrapsFirst(was, c1, c2, dst[..], src[..], b, a, n);
    return copyThird - size, copySecond + copyThird - size;
  }

  // ---- The tape ----

  /** Advancing a position with the mask advances it around the ring. */
  lemma MaskAdvances(x: nat, bits: nat)
    requires x < 2 * Bits.Pow2(bits)
    ensures Bits.And(x, Bits.Pow2(bits) - 1) == Ring(x, Bits.Pow2(bits))
  {
    var max := Bits.Pow2(bits);
    Bits.AndMask(x, bits);
    if x < max { Bits.ModUnique(x, max, 0, x); } else { Bits.ModUnique(x, max, 1, x - max); }
  }

  /** Between the two positions of a ring stand the bytes q. */
  ghost predicate Holds(data: seq<byte>, readPos: nat, writePos: nat, size: nat, q: seq<byte>)
    requires size > 0
  {
    forall u: nat :: HoldsAt(u, data, readPos, writePos, size, q)
  }

  ghost predicate HoldsAt(unused: nat, data: seq<byte>, readPos: nat, writePos: nat, size: nat, q: seq<byte>)
    requires size > 0
  {
    && readPos < |data| && |q| <= |data| && size <= |data| && writePos == Ring(readPos + |q|, |data|)
    && Aligned(readPos, size) && Aligned(|q|, size) && Aligned(|data|, size)
    && q == RingRead(data, Ring(readPos + size, |data|), |q|)
  }

  lemma HoldsFacts(data: seq<byte>, readPos: nat, writePos: nat, size: nat, q: seq<byte>)
    requires size > 0 && Holds(data, readPos, writePos, size, q)
    ensures Aligned(writePos, size) && writePos < |data| && readPos < |data| && |q| <= |data| && size <= |data|
            && Aligned(|data|, size)
    ensures Aligned(readPos, size) && writePos == Ring(readPos + |q|, |data|)
            && q == RingRead(data, Ring(readPos + size, |data|), |q|)
  {
    assert HoldsAt(0, data, readPos, writePos, size, q);
    AlignedRing(readPos, |q|, |data|, size);
  }

  /** Reading advances the read position past the first bytes. */
  lemma Dequeued(data: seq<byte>, readPos: nat, writePos: nat, size: nat, q: seq<byte>, n: nat)
    requires size > 0 && Holds(data, readPos, writePos, size, q) && n <= |q| && Aligned(n, size)
    ensures readPos < |data| && |q| <= |data| && size <= |data|
    ensures Holds(data, Ring(readPos + n, |data|), writePos, size, q[n..])
    ensures q[..n] == RingRead(data, Ring(readPos + size, |data|), n)
  {
    assert HoldsAt(0, data, readPos, writePos, size, q);
    AlignedRing(readPos, n, |data|, size);
    AlignedSum(|q|, n, size);
  }

  /** Writing behind the write position appends. */
  lemma Enqueued(data: seq<byte>, readPos: nat, writePos: nat, size: nat, q: seq<byte>, x: seq<byte>)
    requires size > 0 && Holds(data, readPos, writePos, size, q) && |q| + |x| <= |data| && Aligned(|x|, size)
             && |x| >= size
    ensures writePos < |data| && size <= |data|
    ensures Holds(RingWrite(data, Ring(writePos + size, |data|), x), readPos, Ring(writePos + |x|, |data|), size, q + x)
  {
    assert HoldsAt(0, data, readPos, writePos, size, q);
    AlignedSum(|q|, |x|, size);
  }

  /** When a block of n bytes moves from the one ring to the other, so it does from queue to queue. */
  lemma QueuesFollow(src: Side, rEnd: nat, q: seq<byte>, dst: Side, wStart: nat, p: seq<byte>, size: nat, n: nat)
    requires size > 0 && Holds(src.data, src.pos, rEnd, size, q) && Holds(dst.data, wStart, dst.pos, size, p)
    requires n <= |q| && |p| + n <= |dst.data| && size <= n && Aligned(n, size)
    ensures src.pos < |src.data| && dst.pos < |dst.data| && size <= |src.data| && size <= |dst.data|
            && |q| <= |src.data|
    ensures Aligned(src.pos, size) && Aligned(dst.pos, size)
    ensures var (r, w) := BlockMoved(src, dst, size, n);
      Holds(r.data, r.pos, rEnd, size, q[n..]) && Holds(w.data, wStart, w.pos, size, p + q[..n])
  {
    HoldsFacts(src.data, src.pos, rEnd, size, q);
    HoldsFacts(dst.data, wStart, dst.pos, size, p);
    Dequeued(src.data, src.pos, rEnd, size, q, n);
    Enqueued(dst.data, wStart, dst.pos, size, p, q[..n]);
  }

  class Tape {
    const data: array<byte>
    const dataSize: nat
    const mask: nat
    ghost const bits: nat
    var readPos: nat
    var writePos: nat
    /** What has been written and not read. */
    ghost var bytes: seq<byte>

    ghost predicate Shape() {
      dataSize > 0 && data.Length == Bits.Pow2(bits) == mask + 1 && Aligned(data.Length, dataSize)
          && dataSize <= data.Length
    }

    ghost predicate Valid()
      reads this, data
    {
      && Shape() && readPos < data.Length && writePos < data.Length && |bytes| <= data.Length
      && Holds(data[..], readPos, writePos, dataSize, bytes)
    }

    /** The creating code insists that a tape's size in bytes is a power of two. */
    constructor (dataSize: nat, tapeLength: nat)
      requires dataSize > 0 && tapeLength > 0 && Bits.IsPow2(dataSize * tapeLength)
      ensures Valid() && fresh(data) && bytes == [] && this.dataSize == dataSize
      ensures data.Length == dataSize * tapeLength && mask == data.Length - 1
    {
      var totalSize := dataSize * tapeLength;
      AlignedProduct(tapeLength, dataSize);
      AlignedProduct(0, dataSize);
      Bits.Pow2Log2(totalSize);
      this.dataSize, mask, data := dataSize, totalSize - 1, new byte[totalSize];
      bits, readPos, writePos, bytes := Bits.Log2(totalSize), 0, 0, [];
    }
  }

  /** n bytes can move from the one tape to the other. */
  ghost predicate Movable(input: Tape, output: Tape, n: nat)
    reads input, output, input.data, output.data
  {
    && input.Valid() && output.Valid() && input != output && input.data != output.data
        && input.dataSize == output.dataSize
    && n <= |input.bytes| && |output.bytes| + n <= output.data.Length
  }

  ghost function ReadSide(t: Tape): Side
    reads t, t.data
  {
    Side(t.data[..], t.readPos)
  }

  ghost function WriteSide(t: Tape): Side
    reads t, t.data
  {
    Side(t.data[..], t.writePos)
  }

  /** The rings have the right shape and the positions are those of items. */
  ghost predicate Steady(input: Tape, output: Tape)
    reads input, output
  {
    && input.Shape() && output.Shape() && input != output && input.data != output.data
        && input.dataSize == output.dataSize
    && input.readPos < input.data.Length && output.writePos < output.data.Length
    && Aligned(input.readPos, input.dataSize) && Aligned(output.writePos, input.dataSize)
  }

  lemma CopiedBlock(src: Side, dst: Side, size: nat, n: nat, data: seq<byte>, r: nat, w: nat)
    requires src.pos < |src.data| && dst.pos < |dst.data| && size <= n <= |src.data| && n <= |dst.data|
    requires var a, b := Ring(src.pos + size, |src.data|), Ring(dst.pos + size, |dst.data|);
             && data == RingWrite(dst.data, b, RingRead(src.data, a, n))
             && r == Ring(a + n - size, |src.data|) && w == Ring(b + n - size, |dst.data|)
    ensures (Side(src.data, r), Side(data, w)) == BlockMoved(src, dst, size, n)
  {
  }

  /** Where the item after the one at pos stands: masking finds it, and it does not wrap around. */
  lemma NextItem(pos: nat, size: nat, length: nat, bits: nat)
    requires 0 < size <= length == Bits.Pow2(bits) && pos < length && Aligned(pos, size) && Aligned(length, size)
    ensures Bits.And(pos + size, length - 1) == Ring(pos + size, length)
    ensures Aligned(Ring(pos + size, length), size) && Ring(pos + size, length) + size <= length
  {
    MaskAdvances(pos + size, bits);
    SizeAligned(size);
    AlignedRing(pos, size, length, size);
    AlignedGap(Ring(pos + size, length), length, size);
  }

  lemma SizeAligned(size: nat)
    requires size > 0
    ensures Aligned(size, size)
  {
    Bits.ModUnique(size, size, 1, 0);
    forall u: nat ensures AlignedAt(u, size, size) { }
  }

  lemma CopiedItem(src: Side, dst: Side, size: nat, data: seq<byte>, r: nat, w: nat)
    requires src.pos < |src.data| && dst.pos < |dst.data| && 0 < size <= |src.data| && size <= |dst.data|
    requires r == Ring(src.pos + size, |src.data|) && w == Ring(dst.pos + size, |dst.data|)
    requires r + size <= |src.data| && w + size <= |dst.data| && Placed(dst.data, data, src.data, w, r, size)
    ensures (Side(src.data, r), Side(data, w)) == BlockMoved(src, dst, size, size)
  {
    OnePiece(dst.data, data, src.data, w, r, size);
    CopiedBlock(src, dst, size, size, data, r, w);
  }

  /** One item: both positions advance with the mask, then the item's bytes are copied. */
  method CopyOne(input: Tape, output: Tape)
    requires Steady(input, output)
    modifies input`readPos, output`writePos, output.data
    ensures (ReadSide(input), WriteSide(output)) ==
            old(BlockMoved(ReadSide(input), WriteSide(output), input.dataSize, input.dataSize))
  {
    var size := output.dataSize;
    ghost var src, dst := ReadSide(input), WriteSide(output);
    NextItem(input.readPos, size, input.data.Length, input.bits);
    NextItem(output.writePos, size, output.data.Length, output.bits);
    input.readPos := Bits.And(input.readPos + size, input.mask);
    output.writePos := Bits.And(output.writePos + size, output.mask);
    MemCpy(output.data, output.writePos, input.data, input.readPos, size);
    CopiedItem(src, dst, size, output.data[..], input.readPos, output.writePos);
  }

  /** From the item after the one at each side's position. */
  method CopyOn(dst: array<byte>, b: nat, src: array<byte>, a: nat, n: nat, size: nat, ghost from0: Side,
                ghost to0: Side)
    returns (r: nat, w: nat)
    requires dst != src && from0.pos < src.Length && to0.pos < dst.Length && 0 < size <= n <= src.Length
             && n <= dst.Length
    requires from0.data == src[..] && to0.data == dst[..]
    requires a == Ring(from0.pos + size, src.Length) && b == Ring(to0.pos + size, dst.Length)
    requires Aligned(a, size) && Aligned(b, size) && Aligned(n, size) && Aligned(src.Length, size)
             && Aligned(dst.Length, size)
    modifies dst
    ensures (Side(src[..], r), Side(dst[..], w)) == BlockMoved(from0, to0, size, n)
  {
    var r', w' := CopyBlock(dst, b, src, a, n, size);
    assert src[..] == from0.data;
    CopiedBlock(from0, to0, size, n, dst[..], r', w');
    r, w := r', w';
  }

  /** A block of n bytes, copied in at most three pieces. */
  method CopyMany(input: Tape, output: Tape, n: nat)
    requires Steady(input, output) && Aligned(n, input.dataSize) && input.dataSize <= n <= input.data.Length
             && n <= output.data.Length
    modifies input`readPos, output`writePos, output.data
    ensures (ReadSide(input), WriteSide(output)) ==
            old(BlockMoved(ReadSide(input), WriteSide(output), input.dataSize, n))
  {
    var size := input.dataSize;
    NextItem(input.readPos, size, input.data.Length, input.bits);
    NextItem(output.writePos, size, output.data.Length, output.bits);
    var readPos := Bits.And(input.readPos + size, input.mask);
    var writePos := Bits.And(output.writePos + size, output.mask);
    var r, w := CopyOn(output.data, writePos, input.data, readPos, n, size, ReadSide(input), WriteSide(output));
    input.readPos, output.writePos := r, w;
  }

  /** Moves the next item from the one tape's queue to the other's. */
  method MoveItem(input: Tape, output: Tape)
    requires Movable(input, output, input.dataSize)
    modifies input`readPos, input`bytes, output`writePos, output`bytes, output.data
    ensures input.Valid() && output.Valid()
    ensures (ReadSide(input), WriteSide(output)) ==
            old(ItemSteps(ReadSide(input), WriteSide(output), input.dataSize, 1))
    ensures input.bytes == old(input.bytes[input.dataSize..])
    ensures output.bytes == old(output.bytes + input.bytes[..input.dataSize])
  {
    ghost var size := input.dataSize;
    AlignedProduct(1, size);
    QueuesFollow(ReadSide(input), input.writePos, input.bytes, WriteSide(output), output.readPos, output.bytes, size,
                 size);
    StepsMoveBlock(ReadSide(input), WriteSide(output), size, 1, size);
    CopyOne(input, output);
    output.bytes, input.bytes := output.bytes + input.bytes[..size], input.bytes[size..];
  }

  /** Moves the next ratio items as a block; the tapes are the same as after ratio single steps. */
  method MoveItems(input: Tape, output: Tape, ratio: nat)
    requires ratio > 0 && Movable(input, output, ratio * input.dataSize)
    modifies input`readPos, input`bytes, output`writePos, output`bytes, output.data
    ensures input.Valid() && output.Valid()
    ensures (ReadSide(input), WriteSide(output)) ==
            old(ItemSteps(ReadSide(input), WriteSide(output), input.dataSize, ratio))
    ensures input.bytes == old(input.bytes[ratio * input.dataSize..])
    ensures output.bytes == old(output.bytes + input.bytes[..ratio * input.dataSize])
  {
    var n := ratio * input.dataSize;
    AlignedProduct(ratio, input.dataSize);
    QueuesFollow(ReadSide(input), input.writePos, input.bytes, WriteSide(output), output.readPos, output.bytes,
                 input.dataSize, n);
    StepsMoveBlock(ReadSide(input), WriteSide(output), input.dataSize, ratio, n);
    CopyMany(input, output, n);
    output.bytes, input.bytes := output.bytes + input.bytes[..n], input.bytes[n..];
  }
}
