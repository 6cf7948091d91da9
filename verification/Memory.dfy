/** `malloc` and `free`. Blocks are numbered in the order of allocation; using or
    freeing a block that is not live, or writing past its end, is a fault. */
module Memory {
  import opened Option

  datatype Heap = Heap(live: map<nat, nat>, total: nat, freed: nat, fault: bool)

  function Empty(): Heap {
    Heap(map[], 0, 0, false)
  }

  /** The new block, or `None` when the allocation fails. */
  function Malloc(h: Heap, size: nat, ok: bool): (Heap, Option<nat>) {
    if ok then (h.(live := h.live[h.total := size], total := h.total + 1), Some(h.total))
    else (h, None)
  }

  function Free(h: Heap, block: nat): Heap {
    if block in h.live then h.(live := h.live - {block}, freed := h.freed + 1) else h.(fault := true)
  }

  function Check(h: Heap, ok: bool): Heap {
    if ok then h else h.(fault := true)
  }

  /** Writing the first `n` bytes of a block. */
  function Write(h: Heap, block: nat, n: nat): Heap {
    Check(h, block in h.live && n <= h.live[block])
  }

  /** Every block ever allocated is live or has been freed once. */
  ghost predicate Accounted(h: Heap) {
    (forall p | p in h.live :: p < h.total) && h.total == h.freed + |h.live|
  }

  /** Besides, there has been no fault so far. */
  ghost predicate Sound(h: Heap) {
    !h.fault && Accounted(h)
  }

  lemma MallocSound(h: Heap, size: nat, ok: bool)
    requires Accounted(h)
    ensures Accounted(Malloc(h, size, ok).0) && Malloc(h, size, ok).0.fault == h.fault
    ensures h.total !in h.live
  {
    var live := h.live[h.total := size];
    assert live.Keys == h.live.Keys + {h.total};
    assert |live| == |live.Keys| && |h.live| == |h.live.Keys|;
  }

  lemma FreeSound(h: Heap, block: nat)
    requires Accounted(h) && block in h.live
    ensures Accounted(Free(h, block)) && Free(h, block).fault == h.fault
    ensures Free(h, block).live.Keys == h.live.Keys - {block}
  {
    var live := h.live - {block};
    assert live.Keys == h.live.Keys - {block};
    assert |live| == |live.Keys| && |h.live| == |h.live.Keys|;
  }
}
