/** The loop of `app_main` that drains the receive buffer. */
module AppMain {
  import opened Bits
  import opened ByteQueue
  import opened SwSerialDriver

  /** Bytes as the buffer stores them. */
  function Flipped(invert: bool, bytes: seq<bv8>): (r: seq<bv8>)
    ensures |r| == |bytes|
  {
    seq(|bytes|, k requires 0 <= k < |bytes| => Flip(invert, bytes[k]))
  }

  lemma FlippedConcat(invert: bool, a: seq<bv8>, b: seq<bv8>)
    ensures Flipped(invert, a + b) == Flipped(invert, a) + Flipped(invert, b)
  {
  }

  /** Bytes arriving one after the other are offered to the queue as stored. */
  method StoreAll(s: SwSerial, bytes: seq<bv8>)
    requires s.Valid()
    modifies s`inPos, s`overflow, s.buffer
    ensures s.Valid() && s.Abs() == OfferAll(old(s.Abs()), Flipped(s.invert, bytes))
  {
    ghost var q, all := s.Abs(), Flipped(s.invert, bytes);
    for i := 0 to |bytes|
      invariant s.Valid() && s.Abs() == OfferAll(q, all[..i])
    {
      OneMore(all, i);
      s.Store(bytes[i]);
    }
    assert all[..|bytes|] == all;
  }

  lemma OneMore(all: seq<bv8>, i: nat)
    requires i < |all|
    ensures all[..i + 1] != [] && all[..i + 1][..i] == all[..i] && all[..i + 1][i] == all[i]
  {
  }

  /** They go behind what is queued, in order, as far as there is room. */
  ghost predicate QueuedBehind(q: Queue, now: Queue, invert: bool, bytes: seq<bv8>) {
    && now.cap == q.cap
    && now.items == q.items + Flipped(invert, if |bytes| <= Room(q) then bytes else bytes[..Room(q)])
    && (now.overflow <==> q.overflow || |bytes| > Room(q))
  }

  lemma OfferedAreBehind(q: Queue, invert: bool, bytes: seq<bv8>)
    requires Bounded(q)
    ensures QueuedBehind(q, OfferAll(q, Flipped(invert, bytes)), invert, bytes)
  {
    var all := Flipped(invert, bytes);
    OfferAllKeeps(q, all);
    if |bytes| > Room(q) {
      assert Flipped(invert, bytes[..Room(q)]) == all[..Room(q)];
    }
  }

  /** Bytes arriving while the task is between two calls. */
  method Arrivals(s: SwSerial, bytes: seq<bv8>)
    requires s.Valid()
    modifies s`inPos, s`overflow, s.buffer
    ensures s.Valid() && s.Abs() == OfferAll(old(s.Abs()), Flipped(s.invert, bytes))
    ensures QueuedBehind(old(s.Abs()), s.Abs(), s.invert, bytes)
  {
    OfferedAreBehind(s.Abs(), s.invert, bytes);
    StoreAll(s, bytes);
  }

  /** All the bytes arriving before the first n reads of a pass. */
  function Arrived(arriving: nat -> seq<bv8>, n: nat): seq<bv8> {
    if n == 0 then [] else Arrived(arriving, n - 1) + arriving(n - 1)
  }

  lemma {:induction false} ArrivedGrows(arriving: nat -> seq<bv8>, i: nat, n: nat)
    requires i <= n
    ensures |Arrived(arriving, i)| <= |Arrived(arriving, n)|
  {
    if i < n { ArrivedGrows(arriving, i, n - 1); }
  }

  /** The queue after i times bytes arriving and a read. */
  function Pass(q: Queue, invert: bool, arriving: nat -> seq<bv8>, i: nat): Queue {
    if i == 0 then q else Take(OfferAll(Pass(q, invert, arriving, i - 1), Flipped(invert, arriving(i - 1))))
  }

  /** There is room for all that comes during a pass that begins with `before`. */
  ghost predicate Roomy(before: Queue, arriving: nat -> seq<bv8>) {
    |before.items| + |Arrived(arriving, |before.items|)| <= before.cap
  }

  /** What is kept of the queue `before` after i reads of a pass, if `came` has come. */
  ghost predicate Keeps(before: Queue, now: Queue, i: nat, came: seq<bv8>, roomy: bool)
    requires i <= |before.items|
  {
    && now.cap == before.cap && Bounded(now)
    && before.items[i..] <= now.items
    && (before.overflow ==> now.overflow)
    && (roomy ==> now == before.(items := before.items[i..] + came))
  }

  lemma FeedStep(before: Queue, now: Queue, i: nat, came: seq<bv8>, more: seq<bv8>, roomy: bool)
    requires i <= |before.items| && Keeps(before, now, i, came, roomy)
    requires roomy ==> |before.items| + |came| + |more| <= before.cap
    ensures Keeps(before, OfferAll(now, more), i, came + more, roomy)
  {
    OfferAllKeeps(now, more);
    if roomy {
      assert before.items[i..] + (came + more) == (before.items[i..] + came) + more;
    }
  }

  lemma ReadStep(before: Queue, now: Queue, i: nat, came: seq<bv8>, roomy: bool)
    requires i < |before.items| && Keeps(before, now, i, came, roomy)
    ensures now.items != [] && Front(now) == before.items[i] as int
    ensures Keeps(before, Take(now), i + 1, came, roomy)
  {
    assert before.items[i..][0] == before.items[i];
    assert before.items[i + 1..] == before.items[i..][1..];
  }

  /** During a pass the bytes not yet read stay in front, the capacity stays and a
      raised flag stays raised; with room for all that comes, it is queued behind
      them in order, and the flag is as it was. */
  lemma {:induction false} PassKeeps(before: Queue, invert: bool, arriving: nat -> seq<bv8>, i: nat)
    requires Bounded(before) && i <= |before.items|
    ensures Keeps(before, Pass(before, invert, arriving, i), i,
                  Flipped(invert, Arrived(arriving, i)), Roomy(before, arriving))
    ensures i < |before.items| ==>
      Front(OfferAll(Pass(before, invert, arriving, i), Flipped(invert, arriving(i)))) == before.items[i] as int
    decreases i
  {
    if i > 0 {
      PassKeeps(before, invert, arriving, i - 1);
      FeedPass(before, invert, arriving, i - 1);
    }
    if i < |before.items| {
      FeedPass(before, invert, arriving, i);
    }
  }

  lemma FeedPass(before: Queue, invert: bool, arriving: nat -> seq<bv8>, i: nat)
    requires i < |before.items|
    requires Keeps(before, Pass(before, invert, arriving, i), i,
                   Flipped(invert, Arrived(arriving, i)), Roomy(before, arriving))
    ensures Keeps(before, Pass(before, invert, arriving, i + 1), i + 1,
                  Flipped(invert, Arrived(arriving, i + 1)), Roomy(before, arriving))
    ensures Front(OfferAll(Pass(before, invert, arriving, i), Flipped(invert, arriving(i)))) == before.items[i] as int
  {
    var now := Pass(before, invert, arriving, i);
    var came, more := Flipped(invert, Arrived(arriving, i)), Flipped(invert, arriving(i));
    ArrivedGrows(arriving, i + 1, |before.items|);
    FeedStep(before, now, i, came, more, Roomy(before, arriving));
    ReadStep(before, OfferAll(now, more), i, came + more, Roomy(before, arriving));
    FlippedConcat(invert, Arrived(arriving, i), arriving(i));
  }

  lemma PrintOne(items: seq<bv8>, i: nat)
    requires i < |items|
    ensures Ints(items[..i + 1]) == Ints(items[..i]) + [items[i] as int]
  {
  }

  lemma AllPrinted(items: seq<bv8>)
    ensures Ints(items[..|items|]) == Ints(items) && -1 !in Ints(items)
  {
    assert items[..|items|] == items;
  }

  /** Bytes arrive, and one is read. */
  method ReadOne(s: SwSerial, bytes: seq<bv8>) returns (r: int)
    requires s.Valid()
    modifies s`inPos, s`outPos, s`overflow, s.buffer
    ensures s.Valid()
    ensures s.Abs() == Take(OfferAll(old(s.Abs()), Flipped(s.invert, bytes)))
    ensures r == Front(OfferAll(old(s.Abs()), Flipped(s.invert, bytes)))
  {
    Arrivals(s, bytes);
    r := s.Read();
  }

  /** Bytes arrive, and the next byte that was queued at the start is printed. */
  method PrintNext(s: SwSerial, arriving: nat -> seq<bv8>, i: nat, printed: seq<int>, ghost before: Queue)
    returns (more: seq<int>)
    requires s.Valid() && Bounded(before) && i < |before.items| && s.Abs() == Pass(before, s.invert, arriving, i)
    requires printed == Ints(before.items[..i])
    modifies s`inPos, s`outPos, s`overflow, s.buffer
    ensures s.Valid() && s.Abs() == Pass(before, s.invert, arriving, i + 1)
    ensures more == Ints(before.items[..i + 1])
  {
    var r := ReadOne(s, arriving(i));
    PassKeeps(before, s.invert, arriving, i);
    PrintOne(before.items, i);
    more := printed + [r];
  }

  /** The reads of a pass. */
  method ReadAll(s: SwSerial, arriving: nat -> seq<bv8>, len: nat, ghost before: Queue) returns (printed: seq<int>)
    requires s.Valid() && s.Abs() == before && Bounded(before) && len == |before.items|
    modifies s`inPos, s`outPos, s`overflow, s.buffer
    ensures s.Valid() && s.Abs() == Pass(before, s.invert, arriving, len)
    ensures printed == Ints(before.items[..len])
  {
    printed := [];
    for i := 0 to len
      invariant s.Valid() && s.Abs() == Pass(before, s.invert, arriving, i)
      invariant printed == Ints(before.items[..i])
    {
      printed := PrintNext(s, arriving, i, printed, before);
    }
  }

  /** The whole pass: all that was queued is gone; if there was room for all that
      came, exactly that is queued, in order, and the flag is as it was; in any case
      the capacity is, and a raised flag stays raised. */
  lemma PassLeaves(q: Queue, invert: bool, arriving: nat -> seq<bv8>)
    requires Bounded(q)
    ensures var r, came := Pass(q, invert, arriving, |q.items|), Arrived(arriving, |q.items|);
      && r.cap == q.cap && (q.overflow ==> r.overflow)
      && (|q.items| + |came| <= q.cap ==> r == q.(items := Flipped(invert, came)))
  {
    PassKeeps(q, invert, arriving, |q.items|);
    assert q.items[|q.items|..] == [];
  }

  /** One pass: `sw_any`, then that many `sw_read`s, with any bytes arriving before
      each of them. What is printed is what was queued when `sw_any` was called, so
      no pass ever prints the end-of-data mark. If there was room for all that came
      in the meantime, exactly that is queued afterwards, in order, and the flag is
      as it was; in any case the capacity is, and a raised flag stays raised. */
  method DrainOnce(s: SwSerial, arriving: nat -> seq<bv8>) returns (printed: seq<int>)
    requires s.Valid()
    modifies s`inPos, s`outPos, s`overflow, s.buffer
    ensures s.Valid()
    ensures printed == Ints(old(s.Abs()).items)
    ensures -1 !in printed
    ensures s.Abs() == Pass(old(s.Abs()), s.invert, arriving, |old(s.Abs()).items|)
    ensures s.Abs().cap == old(s.Abs()).cap && (old(s.Abs()).overflow ==> s.Abs().overflow)
    ensures var q, came := old(s.Abs()), Arrived(arriving, |old(s.Abs()).items|);
      |q.items| + |came| <= q.cap ==> s.Abs() == q.(items := Flipped(s.invert, came))
  {
    PassLeaves(s.Abs(), s.invert, arriving);
    AllPrinted(s.Abs().items);
    var len := s.Any();
    printed := [];
    if len > 0 {
      printed := ReadAll(s, arriving, len, s.Abs());
    }
  }
}
