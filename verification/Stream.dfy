/** A receiver driven by the falling edges of a whole stream of frames. */
module Stream {
  import opened Option
  import opened Wire
  import opened Timing

  /** One handler run: the log index of the edge that triggered it, when it sampled
      the line, and when it was over and edges could trigger again. */
  datatype Activation = Activation(edge: nat, times: seq<nat>, done: nat)

  predicate Falling(idle: bool, log: seq<Edge>, j: nat)
    requires j < |log|
  {
    !log[j].high && if j == 0 then idle else log[j - 1].high
  }

  ghost predicate Triggered(l: Link, idle: bool, log: seq<Edge>, a: Activation) {
    && a.edge < |log|
    && Falling(idle, log, a.edge)
    && LinkSamples(l, Signal(idle, log), a.times, log[a.edge].at)
    && a.times[|a.times| - 1] <= a.done <= a.times[|a.times| - 1] + l.x
  }

  /** `later` starts on a later edge, after `earlier` has finished. */
  ghost predicate Precedes(log: seq<Edge>, earlier: Activation, later: Activation) {
    earlier.edge < later.edge < |log| && earlier.done < log[later.edge].at
  }

  /** Edge j falls while run `a` is in progress. */
  ghost predicate Busy(log: seq<Edge>, a: Activation, j: nat)
    requires j < |log|
  {
    a.edge < j && log[j].at <= a.done
  }

  ghost predicate Served(log: seq<Edge>, acts: seq<Activation>, j: nat)
    requires j < |log|
  {
    exists n | 0 <= n < |acts| :: acts[n].edge == j || Busy(log, acts[n], j)
  }

  /** What the interrupt hardware does with the line: every run is triggered by a
      falling edge, runs do not overlap, and every falling edge either triggers a
      run or comes while one is in progress and is ignored. */
  ghost predicate Run(l: Link, idle: bool, log: seq<Edge>, acts: seq<Activation>) {
    && (forall n {:trigger Triggered(l, idle, log, acts[n])} | 0 <= n < |acts| :: Triggered(l, idle, log, acts[n]))
    && (forall i, j {:trigger Precedes(log, acts[i], acts[j])} | 0 <= i < j < |acts| :: Precedes(log, acts[i], acts[j]))
    && (forall j {:trigger Served(log, acts, j)} | 0 <= j < |log| && Falling(idle, log, j) :: Served(log, acts, j))
  }

  /** The bytes the runs hand to the receive buffer, in order. */
  function Delivered(signal: nat -> bool, acts: seq<Activation>): seq<bv8> {
    if acts == [] then []
    else
      Delivered(signal, acts[..|acts| - 1]) +
      match Decode(signal, acts[|acts| - 1].times, false)
      case None => []
      case Some(b) => [b]
  }

  function Payload(frames: seq<Frame>): seq<bv8> {
    seq(|frames|, k requires 0 <= k < |frames| => frames[k].byte)
  }

  /** The first k runs were triggered by the start bits of the first k frames. */
  ghost predicate OnStartBits(acts: seq<Activation>, k: nat) {
    k <= |acts| && forall n | 0 <= n < k :: acts[n].edge == 11 * n + 1
  }

  /** A run triggered by the start bit of frame k decodes the frame and ends
      during its stop bit. */
  lemma {:induction false} RunReadsFrame(l: Link, idle: bool, frames: seq<Frame>, k: nat, a: Activation)
    requires StreamWindow(l) && InOrder(frames, l.bt, l.ht) && k < |frames|
    requires Triggered(l, idle, StreamLog(frames), a) && a.edge == 11 * k + 1
    ensures Decode(Signal(idle, StreamLog(frames)), a.times, false) == Some(frames[k].byte)
    ensures frames[k].edges[9] <= a.done < frames[k].edges[10]
  {
    StreamAt(frames, k, 1);
    DecodesFrame(l, idle, frames, k, a.times, false);
    StopInCell(l, frames[k].edges, a.times);
  }

  /** A falling edge is never a frame's first write, and none comes after the
      beginning of the frame's stop bit. */
  lemma {:induction false} FallingInside(idle: bool, frames: seq<Frame>, bt: nat, ht: nat, q: nat, m: nat)
    requires InOrder(frames, bt, ht) && q < |frames| && m < 11
    requires Falling(idle, StreamLog(frames), 11 * q + m)
    ensures m >= 1 && StreamLog(frames)[11 * q + m].at <= frames[q].edges[9]
  {
    StreamAt(frames, q, m);
    if m >= 1 {
      CellsSorted(frames[q].edges, bt, ht, m - 1, 9);
    }
  }

  /** After the runs of the first k frames, the next run can only be triggered by
      a later frame: the edges inside a frame all come while its run lasts. */
  lemma {:induction false} NextEdgeIsLater(
    l: Link, idle: bool, frames: seq<Frame>, acts: seq<Activation>, k: nat)
    requires StreamWindow(l) && InOrder(frames, l.bt, l.ht) && Run(l, idle, StreamLog(frames), acts)
    requires OnStartBits(acts, k) && k <= |frames| && k < |acts|
    ensures k < |frames| && acts[k].edge >= 11 * k + 1
  {
    var log := StreamLog(frames);
    assert Triggered(l, idle, log, acts[k]);
    var q, m := Locate(acts[k].edge);
    FallingInside(idle, frames, l.bt, l.ht, q, m);
    if k > 0 {
      assert Precedes(log, acts[k - 1], acts[k]) && Triggered(l, idle, log, acts[k - 1]);
      RunReadsFrame(l, idle, frames, k - 1, acts[k - 1]);
      assert q != k - 1;
    }
  }

  /** A run of an earlier frame is over when frame k starts. */
  lemma {:induction false} EarlierRunIsOver(
    l: Link, idle: bool, frames: seq<Frame>, acts: seq<Activation>, n: nat, k: nat)
    requires StreamWindow(l) && InOrder(frames, l.bt, l.ht) && Run(l, idle, StreamLog(frames), acts)
    requires OnStartBits(acts, k) && n < k < |frames|
    ensures acts[n].done < frames[k].edges[0]
  {
    assert Triggered(l, idle, StreamLog(frames), acts[n]);
    RunReadsFrame(l, idle, frames, n, acts[n]);
    FramesApart(frames, l.bt, l.ht, n, k);
  }

  /** The start bit of frame k finds the receiver idle, so it triggers run k. */
  lemma {:induction false} StartBitTriggers(
    l: Link, idle: bool, frames: seq<Frame>, acts: seq<Activation>, k: nat)
    requires StreamWindow(l) && InOrder(frames, l.bt, l.ht) && Run(l, idle, StreamLog(frames), acts)
    requires OnStartBits(acts, k) && k < |frames|
    ensures OnStartBits(acts, k + 1)
  {
    var log, j := StreamLog(frames), 11 * k + 1;
    StreamAt(frames, k, 0);
    StreamAt(frames, k, 1);
    assert Falling(idle, log, j);
    assert Served(log, acts, j);
    var n :| 0 <= n < |acts| && (acts[n].edge == j || Busy(log, acts[n], j));
    if n < k {
      EarlierRunIsOver(l, idle, frames, acts, n, k);
      assert false;
    }
    NextEdgeIsLater(l, idle, frames, acts, k);
    assert n == k || Precedes(log, acts[k], acts[n]);
  }

  lemma {:induction false} RunsAreFrames(
    l: Link, idle: bool, frames: seq<Frame>, acts: seq<Activation>, k: nat)
    requires StreamWindow(l) && InOrder(frames, l.bt, l.ht) && Run(l, idle, StreamLog(frames), acts)
    requires k <= |frames|
    ensures OnStartBits(acts, k)
  {
    if k > 0 {
      RunsAreFrames(l, idle, frames, acts, k - 1);
      StartBitTriggers(l, idle, frames, acts, k - 1);
    }
  }

  /** Runs that decode the payload deliver it. */
  lemma {:induction false} DeliveredAll(signal: nat -> bool, frames: seq<Frame>, acts: seq<Activation>)
    requires |acts| == |frames|
    requires forall k | 0 <= k < |acts| :: Decode(signal, acts[k].times, false) == Some(frames[k].byte)
    ensures Delivered(signal, acts) == Payload(frames)
  {
    if acts != [] {
      var n := |acts| - 1;
      DeliveredAll(signal, frames[..n], acts[..n]);
      assert Payload(frames) == Payload(frames[..n]) + [frames[n].byte];
    }
  }

  /** The round trip: whatever the idle gaps between frames and the latency and
      overshoot of each run, the handler is entered exactly once per frame, on its
      start bit, is done before the frame is over, and delivers the bytes sent. */
  lemma {:induction false} RoundTrip(l: Link, idle: bool, frames: seq<Frame>, acts: seq<Activation>)
    requires StreamWindow(l) && InOrder(frames, l.bt, l.ht) && Run(l, idle, StreamLog(frames), acts)
    ensures |acts| == |frames|
    ensures forall k | 0 <= k < |acts| :: acts[k].edge == 11 * k + 1 && acts[k].done < frames[k].edges[10]
    ensures Delivered(Signal(idle, StreamLog(frames)), acts) == Payload(frames)
  {
    var n, signal := |frames|, Signal(idle, StreamLog(frames));
    RunsAreFrames(l, idle, frames, acts, n);
    if |acts| > n {
      NextEdgeIsLater(l, idle, frames, acts, n);
      assert false;
    }
    forall k | 0 <= k < n
      ensures Decode(signal, acts[k].times, false) == Some(frames[k].byte) && acts[k].done < frames[k].edges[10]
    {
      assert Triggered(l, idle, StreamLog(frames), acts[k]);
      RunReadsFrame(l, idle, frames, k, acts[k]);
    }
    DeliveredAll(signal, frames, acts);
  }
}
