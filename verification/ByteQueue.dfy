/** The abstract receive queue: a bounded FIFO that refuses bytes when full. */
module ByteQueue {
  datatype Queue = Queue(cap: nat, items: seq<bv8>, overflow: bool)

  ghost predicate Bounded(q: Queue) {
    |q.items| <= q.cap
  }

  /** A received byte is appended, or dropped with the overflow flag raised. */
  function Offer(q: Queue, b: bv8): Queue {
    if |q.items| < q.cap then q.(items := q.items + [b]) else q.(overflow := true)
  }

  function OfferAll(q: Queue, bytes: seq<bv8>): Queue {
    if bytes == [] then q
    else Offer(OfferAll(q, bytes[..|bytes| - 1]), bytes[|bytes| - 1])
  }

  /** Bytes as the values `sw_read` returns for them. */
  function Ints(bytes: seq<bv8>): seq<int> {
    seq(|bytes|, k requires 0 <= k < |bytes| => bytes[k] as int)
  }

  lemma IntsConcat(a: seq<bv8>, b: seq<bv8>)
    ensures Ints(a + b) == Ints(a) + Ints(b)
  {
  }

  /** What `sw_read` and `sw_peek` return. */
  function Front(q: Queue): int {
    if q.items == [] then -1 else q.items[0] as int
  }

  function Take(q: Queue): Queue {
    if q.items == [] then q else q.(items := q.items[1..])
  }

  function Clear(q: Queue): Queue {
    q.(items := [], overflow := false)
  }

  /** The end-of-data mark is never confused with a byte. */
  lemma FrontIsNoData(q: Queue)
    ensures Front(q) == -1 <==> q.items == []
    ensures -1 <= Front(q) <= 255
  {
    if q.items != [] {
      var b := q.items[0];
      assert 0 <= b as int <= 255;
    }
  }

  /** What a read returns for a byte names that byte. */
  lemma IntsAreBytes(bytes: seq<bv8>, k: nat)
    requires k < |bytes|
    ensures 0 <= Ints(bytes)[k] <= 255 && Ints(bytes)[k] as bv8 == bytes[k]
    ensures forall q: Queue | q.items == bytes[k..] :: Front(q) == Ints(bytes)[k]
  {
  }

  /** The room left in a queue. */
  function Room(q: Queue): nat {
    if |q.items| <= q.cap then q.cap - |q.items| else 0
  }

  /** Of the bytes offered as many as there is room for are appended, in order; the
      flag is raised if there were more and left alone otherwise. */
  lemma {:induction false} OfferAllKeeps(q: Queue, bytes: seq<bv8>)
    requires Bounded(q)
    ensures var r := OfferAll(q, bytes);
      && r.cap == q.cap && Bounded(r)
      && r.items == q.items + (if |bytes| <= Room(q) then bytes else bytes[..Room(q)])
      && (r.overflow <==> q.overflow || |bytes| > Room(q))
  {
    if bytes != [] {
      var n := |bytes| - 1;
      OfferAllKeeps(q, bytes[..n]);
      KeepOneMore(Room(q), bytes, n);
    }
  }

  /** Bytes offered to an empty queue: the first `cap` are kept, in order, and the
      flag says whether there were more. */
  lemma OfferAllToEmpty(cap: nat, bytes: seq<bv8>)
    ensures OfferAll(Queue(cap, [], false), bytes) ==
      Queue(cap, if |bytes| <= cap then bytes else bytes[..cap], |bytes| > cap)
  {
    OfferAllKeeps(Queue(cap, [], false), bytes);
  }

  lemma KeepOneMore(cap: nat, bytes: seq<bv8>, n: nat)
    requires n + 1 == |bytes|
    ensures n < cap ==> bytes[..n] + [bytes[n]] == bytes
    ensures n == cap ==> bytes[..n] == bytes[..cap]
    ensures n > cap ==> bytes[..n][..cap] == bytes[..cap]
  {
  }
}
