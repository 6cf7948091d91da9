/** The circular receive buffer: index arithmetic as the C code writes it, and
    the queue the three values `buffer`, `outPos`, `inPos` stand for. */
module Ring {
  import opened CInt

  /** The indices a buffer of `size` bytes can have; `sw_new` takes the size as an
      `int`, so it is at most 2^31 - 1. */
  predicate Indices(size: nat, outPos: nat, inPos: nat) {
    1 <= size < TWO31 && outPos < size && inPos < size
  }

  /** `(pos + 1) % buffSize`. */
  function Next(size: Word, pos: Word): Word
    requires size != 0
  {
    U32(pos + 1) % size
  }

  /** The expression `sw_any` returns, in C's mixed 32-bit arithmetic. */
  function AnyC(size: Word, outPos: Word, inPos: Word): int {
    var avail := I32(U32(inPos - outPos));
    if avail < 0 then I32(U32(U32(avail) + size)) else avail
  }

  /** The queued elements, oldest first. */
  function Slice<T>(buffer: seq<T>, outPos: nat, inPos: nat): (s: seq<T>)
    requires outPos < |buffer| && inPos < |buffer|
  {
    if outPos <= inPos then buffer[outPos..inPos] else buffer[outPos..] + buffer[..inPos]
  }

  /** One step around a ring of `size` places. */
  function Around(size: nat, pos: nat): nat {
    if pos + 1 == size then 0 else pos + 1
  }

  lemma Remainder(x: nat, size: nat)
    requires 0 < size && x <= size
    ensures x % size == if x == size then 0 else x
  {
  }

  /** `Next` steps around the ring and never leaves it. */
  lemma NextIsSuccessor(size: Word, pos: Word)
    requires 1 <= size < TWO31 && pos < size
    ensures Next(size, pos) == Around(size, pos)
  {
    var p: nat := pos + 1;
    assert U32(p) == p by { SmallWord(p); }
    Remainder(p, size);
  }

  /** The handler's test for room compares `next` with `outPos`: they meet exactly
      when size - 1 elements are queued. */
  lemma FullIffNextMeetsOut<T>(buffer: seq<T>, outPos: Word, inPos: Word)
    requires Indices(|buffer|, outPos, inPos)
    ensures |Slice(buffer, outPos, inPos)| <= |buffer| - 1
    ensures Next(|buffer|, inPos) == outPos <==> |Slice(buffer, outPos, inPos)| == |buffer| - 1
  {
    NextIsSuccessor(|buffer|, inPos);
  }

  /** The reader's test for data compares the indices: they meet exactly when
      nothing is queued. */
  lemma EmptyIffIndicesMeet<T>(buffer: seq<T>, outPos: Word, inPos: Word)
    requires Indices(|buffer|, outPos, inPos)
    ensures inPos == outPos <==> Slice(buffer, outPos, inPos) == []
  {
    if inPos != outPos { assert |Slice(buffer, outPos, inPos)| > 0; }
  }

  /** `sw_any` returns the number of queued elements for every size from 1 to
      2^31 - 1 and every pair of indices. */
  lemma AnyIsLength<T>(buffer: seq<T>, outPos: Word, inPos: Word)
    requires Indices(|buffer|, outPos, inPos)
    ensures AnyC(|buffer|, outPos, inPos) == |Slice(buffer, outPos, inPos)|
  {
    var size: Word := |buffer|;
    if outPos <= inPos {
      assert U32(inPos - outPos) == inPos - outPos;
    } else {
      assert U32(inPos - outPos) == inPos - outPos + TWO32;
      assert I32(U32(inPos - outPos)) == inPos - outPos;
      assert U32(inPos - outPos) + size == inPos - outPos + size + TWO32;
      assert U32(U32(inPos - outPos) + size) == inPos - outPos + size;
    }
  }

  /** Storing at `inPos` leaves the queue alone until `inPos` moves on. */
  lemma StoreIsInvisible<T>(buffer: seq<T>, outPos: Word, inPos: Word, b: T)
    requires Indices(|buffer|, outPos, inPos)
    ensures Slice(buffer[inPos := b], outPos, inPos) == Slice(buffer, outPos, inPos)
  {
  }

  lemma SliceExtend<T>(buffer: seq<T>, outPos: nat, inPos: nat)
    requires outPos < |buffer| && inPos < |buffer| && Around(|buffer|, inPos) != outPos
    ensures Slice(buffer, outPos, Around(|buffer|, inPos)) == Slice(buffer, outPos, inPos) + [buffer[inPos]]
  {
    if inPos < outPos {
      assert buffer[..inPos + 1] == buffer[..inPos] + [buffer[inPos]];
    }
  }

  lemma SliceShrink<T>(buffer: seq<T>, outPos: nat, inPos: nat)
    requires outPos < |buffer| && inPos < |buffer| && inPos != outPos
    ensures Slice(buffer, outPos, inPos) == [buffer[outPos]] + Slice(buffer, Around(|buffer|, outPos), inPos)
  {
    if inPos < outPos {
      assert buffer[outPos..] == [buffer[outPos]] + buffer[outPos + 1..];
    }
  }

  /** Moving `inPos` on appends the element it pointed at. */
  lemma PublishAppends<T>(buffer: seq<T>, outPos: Word, inPos: Word)
    requires Indices(|buffer|, outPos, inPos) && Next(|buffer|, inPos) != outPos
    ensures Slice(buffer, outPos, Next(|buffer|, inPos)) == Slice(buffer, outPos, inPos) + [buffer[inPos]]
  {
    NextIsSuccessor(|buffer|, inPos);
    SliceExtend(buffer, outPos, inPos);
  }

  /** Moving `outPos` on removes the oldest element, the one it pointed at. */
  lemma AdvanceRemoves<T>(buffer: seq<T>, outPos: Word, inPos: Word)
    requires Indices(|buffer|, outPos, inPos) && inPos != outPos
    ensures Slice(buffer, outPos, inPos) == [buffer[outPos]] + Slice(buffer, Next(|buffer|, outPos), inPos)
  {
    NextIsSuccessor(|buffer|, outPos);
    SliceShrink(buffer, outPos, inPos);
  }
}
