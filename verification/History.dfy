/** Whole histories of the receive queue, and what reaches the reader of a
    stream of frames. */
module History {
  import opened ByteQueue
  import opened Stream
  import opened Timing
  import opened Wire

  /** One complete call: a well-framed byte arriving, or a call by the reader. */
  datatype Op = Arrive(b: bv8) | Read | Peek | Flush

  /** The queue, and what has happened to the bytes since creation or the last
      flush: returned by `sw_read`, put into the queue, or dropped. */
  datatype Trace = Trace(q: Queue, delivered: seq<bv8>, accepted: seq<bv8>, dropped: seq<bv8>)

  function Step(t: Trace, op: Op): Trace {
    match op
    case Arrive(b) =>
      if |t.q.items| < t.q.cap then t.(q := Offer(t.q, b), accepted := t.accepted + [b])
      else t.(q := Offer(t.q, b), dropped := t.dropped + [b])
    case Read =>
      if Front(t.q) == -1 then t
      else t.(q := Take(t.q), delivered := t.delivered + [t.q.items[0]])
    case Peek => t
    case Flush => Trace(Clear(t.q), [], [], [])
  }

  function Exec(cap: nat, ops: seq<Op>): Trace {
    if ops == [] then Trace(Queue(cap, [], false), [], [], [])
    else Step(Exec(cap, ops[..|ops| - 1]), ops[|ops| - 1])
  }

  /** The bytes that arrived since the last flush. */
  function Arrived(ops: seq<Op>): seq<bv8> {
    if ops == [] then []
    else
      var before := Arrived(ops[..|ops| - 1]);
      match ops[|ops| - 1]
      case Arrive(b) => before + [b]
      case Flush => []
      case _ => before
  }

  /** The positions of the arrived bytes that were accepted, in order. */
  function Kept(cap: nat, ops: seq<Op>): (kept: seq<nat>) {
    if ops == [] then []
    else
      var init := ops[..|ops| - 1];
      match ops[|ops| - 1]
      case Arrive(b) =>
        if |Exec(cap, init).q.items| < cap then Kept(cap, init) + [|Arrived(init)|] else Kept(cap, init)
      case Flush => []
      case _ => Kept(cap, init)
  }

  /** The bytes of `all` at the given positions. */
  function Select(all: seq<bv8>, positions: seq<nat>): (s: seq<bv8>)
    requires forall k | 0 <= k < |positions| :: positions[k] < |all|
    ensures |s| == |positions|
  {
    seq(|positions|, k requires 0 <= k < |positions| => all[positions[k]])
  }

  /** The bytes read followed by the bytes queued are the accepted bytes in order;
      every arrived byte is read, queued or dropped, once; the queue is within
      bounds; and the overflow flag is up exactly when a byte was dropped. */
  ghost predicate Balanced(t: Trace, arrived: seq<bv8>) {
    && Bounded(t.q)
    && t.delivered + t.q.items == t.accepted
    && multiset(arrived) == multiset(t.accepted) + multiset(t.dropped)
    && (t.q.overflow <==> t.dropped != [])
  }

  lemma ArriveBalanced(t: Trace, arrived: seq<bv8>, b: bv8)
    requires Balanced(t, arrived)
    ensures Balanced(Step(t, Arrive(b)), arrived + [b])
  {
    assert multiset(arrived + [b]) == multiset(arrived) + multiset{b};
    if |t.q.items| < t.q.cap {
      assert t.delivered + (t.q.items + [b]) == t.accepted + [b];
      assert multiset(t.accepted + [b]) == multiset(t.accepted) + multiset{b};
    } else {
      assert multiset(t.dropped + [b]) == multiset(t.dropped) + multiset{b};
    }
  }

  lemma ReadBalanced(t: Trace, arrived: seq<bv8>)
    requires Balanced(t, arrived)
    ensures Balanced(Step(t, Read), arrived)
  {
    FrontIsNoData(t.q);
    if t.q.items != [] {
      var b, rest := t.q.items[0], t.q.items[1..];
      assert t.q.items == [b] + rest;
      assert (t.delivered + [b]) + rest == t.delivered + t.q.items;
    }
  }

  /** After any history the trace is balanced, and so, counting since the last
      flush, bytes arrived = bytes read + queued + dropped. */
  lemma {:induction false} Conservation(cap: nat, ops: seq<Op>)
    ensures Exec(cap, ops).q.cap == cap
    ensures Balanced(Exec(cap, ops), Arrived(ops))
    ensures var t := Exec(cap, ops); |Arrived(ops)| == |t.delivered| + |t.q.items| + |t.dropped|
  {
    if ops != [] {
      var init, op := ops[..|ops| - 1], ops[|ops| - 1];
      Conservation(cap, init);
      match op
      case Arrive(b) => ArriveBalanced(Exec(cap, init), Arrived(init), b);
      case Read => ReadBalanced(Exec(cap, init), Arrived(init));
      case Peek =>
      case Flush =>
    }
    var t := Exec(cap, ops);
    assert |multiset(Arrived(ops))| == |multiset(t.accepted)| + |multiset(t.dropped)|;
    assert |t.accepted| == |t.delivered + t.q.items|;
  }

  /** The accepted bytes are a subsequence of the arrived ones, and a byte is left
      out exactly when the queue was full on its arrival. */
  lemma {:induction false} AcceptedInOrder(cap: nat, ops: seq<Op>)
    ensures var kept := Kept(cap, ops);
      && (forall k | 0 <= k < |kept| :: kept[k] < |Arrived(ops)|)
      && (forall i, k | 0 <= i < k < |kept| :: kept[i] < kept[k])
      && Exec(cap, ops).accepted == Select(Arrived(ops), kept)
  {
    if ops != [] {
      AcceptedInOrder(cap, ops[..|ops| - 1]);
      ExecCap(cap, ops[..|ops| - 1]);
    }
  }

  lemma {:induction false} ExecCap(cap: nat, ops: seq<Op>)
    ensures Exec(cap, ops).q.cap == cap
  {
    if ops != [] { ExecCap(cap, ops[..|ops| - 1]); }
  }

  lemma {:induction false} NothingDropped(cap: nat, ops: seq<Op>)
    requires Exec(cap, ops).dropped == []
    ensures Exec(cap, ops).accepted == Arrived(ops)
  {
    if ops != [] && !ops[|ops| - 1].Flush? { NothingDropped(cap, ops[..|ops| - 1]); }
  }

  /** At no point since the last flush had more than `cap` bytes arrived that were
      not yet read. */
  predicate KeptUp(cap: nat, ops: seq<Op>) {
    ops == [] || ops[|ops| - 1].Flush? ||
    (KeptUp(cap, ops[..|ops| - 1]) && |Arrived(ops)| <= |Exec(cap, ops).delivered| + cap)
  }

  /** Drops stay recorded, and the first one leaves the queue full. */
  lemma DropStep(t: Trace, op: Op)
    requires Bounded(t.q) && !op.Flush?
    ensures t.dropped != [] ==> Step(t, op).dropped != []
    ensures t.dropped == [] && Step(t, op).dropped != [] ==> |Step(t, op).q.items| == t.q.cap
  {
  }

  /** Since the last flush a byte was lost if and only if the reader at some point
      fell more than the capacity behind; the flag tells. */
  lemma {:induction false} LossIffReaderFellBehind(cap: nat, ops: seq<Op>)
    ensures KeptUp(cap, ops) <==> Exec(cap, ops).dropped == []
    ensures Exec(cap, ops).dropped == [] <==> !Exec(cap, ops).q.overflow
  {
    Conservation(cap, ops);
    if ops != [] && !ops[|ops| - 1].Flush? {
      var init := ops[..|ops| - 1];
      LossIffReaderFellBehind(cap, init);
      Conservation(cap, init);
      DropStep(Exec(cap, init), ops[|ops| - 1]);
    }
  }

  /** The reader's view of a whole stream. The bytes arriving are those delivered
      by the runs of the handler over the frames sent; reads come anywhere in
      between. Then what was read, followed by what is queued, is what was sent
      except for the bytes that met a full queue; and if the overflow flag is
      down it is exactly what was sent. */
  lemma {:induction false} StreamToReader(
    l: Link, idle: bool, frames: seq<Frame>, acts: seq<Activation>, cap: nat, ops: seq<Op>)
    requires StreamWindow(l) && InOrder(frames, l.bt, l.ht) && Run(l, idle, StreamLog(frames), acts)
    requires Arrived(ops) == Delivered(Signal(idle, StreamLog(frames)), acts)
    ensures var t, sent, kept := Exec(cap, ops), Payload(frames), Kept(cap, ops);
      && (forall k | 0 <= k < |kept| :: kept[k] < |sent|)
      && t.delivered + t.q.items == Select(sent, kept)
      && (!t.q.overflow ==> t.delivered + t.q.items == sent)
  {
    RoundTrip(l, idle, frames, acts);
    Conservation(cap, ops);
    AcceptedInOrder(cap, ops);
    if !Exec(cap, ops).q.overflow {
      NothingDropped(cap, ops);
    }
  }
}
