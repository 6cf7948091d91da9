/** One `SwSerial` sending to another over a wire, each on its own clock. */
module Loopback {
  import opened Bits
  import opened ByteQueue
  import opened CInt
  import opened CycleClock
  import opened Stream
  import opened SwSerialDriver
  import opened Timing
  import opened Wire

  lemma {:induction false} InOrderExtend(frames: seq<Frame>, f: Frame, bt: nat, ht: nat)
    requires InOrder(frames, bt, ht) && Cells(f.edges, bt, ht) && f.pre <= f.edges[0]
    requires frames != [] ==> frames[|frames| - 1].edges[10] <= f.pre
    ensures InOrder(frames + [f], bt, ht)
    ensures StreamLog(frames + [f]) == StreamLog(frames) + FrameLog(f)
  {
    var all := frames + [f];
    assert all[..|frames|] == frames;
    forall k | 0 < k < |all| ensures Follows(all, k) {
      assert k == |frames| || Follows(frames, k);
    }
  }

  /** The frames carry the bytes, complemented when `invert`. */
  ghost predicate Carry(frames: seq<Frame>, bytes: seq<bv8>, invert: bool) {
    |frames| == |bytes| && forall k | 0 <= k < |bytes| :: frames[k].byte == Flip(invert, bytes[k])
  }

  /** The frames and the log of the bytes sent so far, the last over by `now`. */
  ghost predicate Sending(frames: seq<Frame>, log: seq<Edge>, bytes: seq<bv8>, invert: bool,
                          bt: nat, ht: nat, now: nat) {
    && InOrder(frames, bt, ht) && log == StreamLog(frames)
    && Carry(frames, bytes, invert)
    && (frames != [] ==> frames[|frames| - 1].edges[10] <= now + 1)
  }

  /** Frame k begins at least `pause(k)` after the one before it ended. */
  ghost predicate PausedAt(frames: seq<Frame>, pause: nat -> nat, k: nat)
    requires Shaped(frames) && 0 < k < |frames|
  {
    frames[k - 1].edges[10] + pause(k) <= frames[k].pre
  }

  ghost predicate Paused(frames: seq<Frame>, pause: nat -> nat) {
    Shaped(frames) && forall k | 0 < k < |frames| :: PausedAt(frames, pause, k)
  }

  lemma {:induction false} PauseNext(frames: seq<Frame>, pause: nat -> nat, f: Frame)
    requires Paused(frames, pause) && |f.edges| == 11
    requires frames != [] ==> frames[|frames| - 1].edges[10] + pause(|frames|) <= f.pre
    ensures Paused(frames + [f], pause)
  {
    forall k | 0 < k < |frames| + 1 ensures PausedAt(frames + [f], pause, k) {
      assert k == |frames| || PausedAt(frames, pause, k);
    }
  }

  lemma {:induction false} SendNext(frames: seq<Frame>, log: seq<Edge>, bytes: seq<bv8>, i: nat, invert: bool,
                                    bt: nat, ht: nat, now: nat, f: Frame, end: nat)
    requires i < |bytes| && Sending(frames, log, bytes[..i], invert, bt, ht, now)
    requires Cells(f.edges, bt, ht) && now < f.pre <= f.edges[0] && f.edges[10] == end + 1
    requires f.byte == Flip(invert, bytes[i])
    ensures Sending(frames + [f], log + FrameLog(f), bytes[..i + 1], invert, bt, ht, end)
  {
    InOrderExtend(frames, f, bt, ht);
    assert bytes[..i + 1] == bytes[..i] + [bytes[i]];
  }

  /** Sending a byte string with a pause of any length before each byte. */
  method SendAll(tx: SwSerial, bytes: seq<bv8>, pause: nat -> nat, gap: nat -> nat, g: nat)
    returns (log: seq<Edge>, frames: seq<Frame>)
    requires Steady(gap, g) && tx.bitTime + g < TWO32
    ensures Carry(frames, bytes, tx.invert)
    ensures InOrder(frames, Least(tx.bitTime), Slack(g)) && log == StreamLog(frames)
    ensures Paused(frames, pause)
  {
    log, frames := [], [];
    var now: nat := 0;
    for i := 0 to |bytes|
      invariant Sending(frames, log, bytes[..i], tx.invert, Least(tx.bitTime), Slack(g), now)
      invariant Paused(frames, pause)
    {
      var wave, f, end := tx.Write(bytes[i], gap, g, now + pause(i));
      SendNext(frames, log, bytes, i, tx.invert, Least(tx.bitTime), Slack(g), now, f, end);
      PauseNext(frames, pause, f);
      frames, log, now := frames + [f], log + wave, end;
    }
    assert bytes[..|bytes|] == bytes;
  }

  /** The receiver's part of the link parameters. */
  ghost predicate ReceiverIs(l: Link, rx: SwSerial, g: nat)
    reads rx
  {
    && l.s == Least(rx.rxStartTime) && l.br == Least(rx.bitTime) && l.e == Least(rx.rxEndTime) && l.hr == Slack(g)
    && rx.rxStartTime + g < TWO32 && rx.bitTime + g < TWO32 && rx.rxEndTime + g < TWO32
  }

  lemma OfferOneMore(q: Queue, bytes: seq<bv8>, b: bv8)
    ensures OfferAll(q, bytes + [b]) == Offer(OfferAll(q, bytes), b)
  {
    assert (bytes + [b])[..|bytes|] == bytes;
  }

  /** What one run does to the receive queue. */
  function Receive(q: Queue, signal: nat -> bool, a: Activation): Queue {
    match Decode(signal, a.times, false)
    case None => q
    case Some(b) => Offer(q, b)
  }

  lemma DeliverOneMore(signal: nat -> bool, acts: seq<Activation>, a: Activation, q: Queue)
    ensures OfferAll(q, Delivered(signal, acts + [a])) == Receive(OfferAll(q, Delivered(signal, acts)), signal, a)
  {
    assert (acts + [a])[..|acts|] == acts;
    match Decode(signal, a.times, false)
    case None => assert Delivered(signal, acts) + [] == Delivered(signal, acts);
    case Some(b) => OfferOneMore(q, Delivered(signal, acts), b);
  }

  /** The first j entries of the log have been served by `acts`. */
  ghost predicate ServedUpTo(l: Link, idle: bool, log: seq<Edge>, acts: seq<Activation>, j: nat) {
    && j <= |log|
    && (forall n {:trigger Triggered(l, idle, log, acts[n])} | 0 <= n < |acts| ::
          Triggered(l, idle, log, acts[n]) && acts[n].edge < j)
    && (forall m, n {:trigger Precedes(log, acts[m], acts[n])} | 0 <= m < n < |acts| ::
          Precedes(log, acts[m], acts[n]))
    && (forall i {:trigger Served(log, acts, i)} | 0 <= i < j && Falling(idle, log, i) :: Served(log, acts, i))
  }

  /** An idle receiver starts a run on the next falling edge. */
  lemma {:induction false} ServeNext(l: Link, idle: bool, log: seq<Edge>, acts: seq<Activation>, a: Activation)
    requires ServedUpTo(l, idle, log, acts, a.edge) && Triggered(l, idle, log, a)
    requires acts != [] ==> acts[|acts| - 1].done < log[a.edge].at
    ensures ServedUpTo(l, idle, log, acts + [a], a.edge + 1)
  {
    var all, n := acts + [a], |acts|;
    forall m | 0 <= m < n ensures Precedes(log, all[m], a) {
      assert Triggered(l, idle, log, acts[m]);
      if m < n - 1 {
        assert Precedes(log, acts[m], acts[n - 1]) && Triggered(l, idle, log, acts[n - 1]);
        DoneAfterStart(l, idle, log, acts[n - 1]);
      }
    }
    forall i, m | 0 <= i < m < |all| ensures Precedes(log, all[i], all[m]) {
      assert m == n || Precedes(log, acts[i], acts[m]);
    }
    forall m | 0 <= m < |all| ensures Triggered(l, idle, log, all[m]) && all[m].edge <= a.edge {
      assert m == n || Triggered(l, idle, log, acts[m]);
    }
    forall i | 0 <= i <= a.edge && Falling(idle, log, i) ensures Served(log, all, i) {
      if i == a.edge {
        assert all[n].edge == i;
      } else {
        assert Served(log, acts, i);
        var m :| 0 <= m < |acts| && (acts[m].edge == i || Busy(log, acts[m], i));
        assert all[m] == acts[m];
      }
    }
  }

  lemma {:induction false} DoneAfterStart(l: Link, idle: bool, log: seq<Edge>, a: Activation)
    requires Triggered(l, idle, log, a)
    ensures log[a.edge].at <= a.done
  {
    if |a.times| == 10 {
      TimesSpan(a.times, l.br, l.e, l.hr, 8);
    }
  }

  /** Any other entry of the log starts nothing. */
  lemma {:induction false} ServeIgnored(l: Link, idle: bool, log: seq<Edge>, acts: seq<Activation>, j: nat)
    requires ServedUpTo(l, idle, log, acts, j) && j < |log|
    requires Falling(idle, log, j) ==> acts != [] && log[j].at <= acts[|acts| - 1].done
    ensures ServedUpTo(l, idle, log, acts, j + 1)
  {
    if Falling(idle, log, j) {
      assert Triggered(l, idle, log, acts[|acts| - 1]);
      assert Busy(log, acts[|acts| - 1], j);
    }
  }

  /** The handler starts `d` after falling edge j and is over `exit` after its last
      look at the line. */
  method ServeEdge(rx: SwSerial, ghost l: Link, idle: bool, log: seq<Edge>, j: nat, d: nat, exit: nat,
                   gap: nat -> nat, g: nat)
    returns (a: Activation)
    requires rx.Valid() && !rx.invert && ReceiverIs(l, rx, g) && Steady(gap, g)
    requires j < |log| && Falling(idle, log, j) && l.d0 <= d <= l.d1 && exit <= l.x
    modifies rx`inPos, rx`overflow, rx.buffer
    ensures rx.Valid() && a.edge == j && Triggered(l, idle, log, a)
    ensures rx.Abs() == Receive(old(rx.Abs()), Signal(idle, log), a)
  {
    var times := rx.RxHandler(Signal(idle, log), gap, g, log[j].at + d);
    a := Activation(j, times, times[|times| - 1] + exit);
  }

  /** The receiver is as the runs so far have left it, j log entries on. */
  ghost predicate Serving(l: Link, idle: bool, log: seq<Edge>, acts: seq<Activation>, j: nat,
                          before: Queue, now: Queue) {
    ServedUpTo(l, idle, log, acts, j) && now == OfferAll(before, Delivered(Signal(idle, log), acts))
  }

  lemma {:induction false} ServeTaken(l: Link, idle: bool, log: seq<Edge>, acts: seq<Activation>, a: Activation,
                                      before: Queue, now: Queue, after: Queue)
    requires Serving(l, idle, log, acts, a.edge, before, now) && Triggered(l, idle, log, a)
    requires acts != [] ==> acts[|acts| - 1].done < log[a.edge].at
    requires after == Receive(now, Signal(idle, log), a)
    ensures Serving(l, idle, log, acts + [a], a.edge + 1, before, after)
  {
    ServeNext(l, idle, log, acts, a);
    DeliverOneMore(Signal(idle, log), acts, a, before);
  }

  lemma {:induction false} ServeSkipped(l: Link, idle: bool, log: seq<Edge>, acts: seq<Activation>, j: nat,
                                        before: Queue, now: Queue)
    requires Serving(l, idle, log, acts, j, before, now) && j < |log|
    requires Falling(idle, log, j) ==> acts != [] && log[j].at <= acts[|acts| - 1].done
    ensures Serving(l, idle, log, acts, j + 1, before, now)
  {
    ServeIgnored(l, idle, log, acts, j);
  }

  /** One log entry: a falling edge that finds the handler idle starts it. */
  method ServeEntry(rx: SwSerial, ghost l: Link, idle: bool, log: seq<Edge>, acts: seq<Activation>, j: nat,
                    d: nat, exit: nat, gap: nat -> nat, g: nat, ghost before: Queue)
    returns (next: seq<Activation>)
    requires rx.Valid() && !rx.invert && ReceiverIs(l, rx, g) && Steady(gap, g)
    requires j < |log| && l.d0 <= d <= l.d1 && exit <= l.x && Serving(l, idle, log, acts, j, before, rx.Abs())
    modifies rx`inPos, rx`overflow, rx.buffer
    ensures rx.Valid() && Serving(l, idle, log, next, j + 1, before, rx.Abs())
  {
    ghost var now := rx.Abs();
    next := acts;
    if Falling(idle, log, j) && (acts == [] || acts[|acts| - 1].done < log[j].at) {
      var a := ServeEdge(rx, l, idle, log, j, d, exit, gap, g);
      next := acts + [a];
      ServeTaken(l, idle, log, acts, a, before, now, rx.Abs());
    } else {
      ServeSkipped(l, idle, log, acts, j, before, now);
    }
  }

  /** The interrupt controller and the receiver: the handler runs `latency` after
      each falling edge that finds it idle, and takes `exit` to return. This is a `Run`, and the receive queue
      is offered exactly the bytes that run delivers. */
  method ServeLine(rx: SwSerial, ghost l: Link, idle: bool, log: seq<Edge>,
                   latency: nat -> nat, exit: nat -> nat, gap: nat -> nat, g: nat)
    returns (acts: seq<Activation>)
    requires rx.Valid() && !rx.invert && ReceiverIs(l, rx, g) && Steady(gap, g)
    requires forall j: nat :: l.d0 <= latency(j) <= l.d1 && exit(j) <= l.x
    modifies rx`inPos, rx`overflow, rx.buffer
    ensures rx.Valid() && Run(l, idle, log, acts)
    ensures rx.Abs() == OfferAll(old(rx.Abs()), Delivered(Signal(idle, log), acts))
  {
    ghost var before := rx.Abs();
    acts := [];
    for j := 0 to |log|
      invariant rx.Valid() && Serving(l, idle, log, acts, j, before, rx.Abs())
    {
      acts := ServeEntry(rx, l, idle, log, acts, j, latency(j), exit(j), gap, g, before);
    }
  }

  /** End to end: bytes sent by one driver are offered, unchanged and in order, to
      the receive queue of the other, whenever the two are within the window. */
  method Transfer(tx: SwSerial, rx: SwSerial, bytes: seq<bv8>, pause: nat -> nat, latency: nat -> nat, exit: nat -> nat,
                  ghost l: Link, txGap: nat -> nat, gt: nat, rxGap: nat -> nat, gr: nat)
    requires tx != rx && !tx.invert && !rx.invert && rx.Valid()
    requires Steady(txGap, gt) && Steady(rxGap, gr) && tx.bitTime + gt < TWO32 && ReceiverIs(l, rx, gr)
    requires l.bt == Least(tx.bitTime) && l.ht == Slack(gt) && StreamWindow(l)
    requires forall j: nat :: l.d0 <= latency(j) <= l.d1 && exit(j) <= l.x
    modifies rx`inPos, rx`overflow, rx.buffer
    ensures rx.Valid() && rx.Abs() == OfferAll(old(rx.Abs()), bytes)
  {
    var log, frames := SendAll(tx, bytes, pause, txGap, gt);
    var acts := ServeLine(rx, l, true, log, latency, exit, rxGap, gr);
    RoundTrip(l, true, frames, acts);
    assert Payload(frames) == bytes;
  }
}
