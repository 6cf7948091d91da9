/** The windows of `Timing` are exact: outside them some byte is lost or misread. */
module Exact {
  import opened Bits
  import opened Option
  import opened Wire
  import opened Timing
  import opened Stream

  /** Equally long cells. */
  function Grid(origin: nat, cell: nat): (edges: seq<nat>)
    ensures |edges| == 11
  {
    seq(11, k requires 0 <= k < 11 => origin + k * cell)
  }

  lemma GridCells(origin: nat, cell: nat, bt: nat, ht: nat)
    requires bt <= cell <= bt + ht
    ensures Cells(Grid(origin, cell), bt, ht)
  {
    var edges := Grid(origin, cell);
    forall k | 0 <= k < 10 ensures StepLength(edges, k, bt, ht) {
      assert (k + 1) * cell == k * cell + cell;
    }
  }

  /** Samples at equal distances, cut short when the start sample is high. */
  function Uniform(signal: nat -> bool, first: nat, step: nat, last: nat): seq<nat> {
    if signal(first) then [first]
    else seq(10, k requires 0 <= k < 10 => if k < 9 then first + k * step else first + 8 * step + last)
  }

  lemma UniformSamples(
    signal: nat -> bool, first: nat, step: nat, last: nat, lo: nat, hi: nat, br: nat, e: nat, hr: nat)
    requires lo <= first <= hi && br <= step <= br + hr && e <= last <= e + hr
    ensures Samples(signal, Uniform(signal, first, step, last), lo, hi, br, e, hr)
  {
    var times := Uniform(signal, first, step, last);
    if !signal(first) {
      forall k | 0 <= k < 8 ensures StepLength(times[..9], k, br, hr) {
        assert (k + 1) * step == k * step + step;
      }
    }
  }

  ghost predicate Lone(f: Frame, bt: nat, ht: nat) {
    Cells(f.edges, bt, ht) && f.pre <= f.edges[0]
  }

  /** One frame and one handler run for it that the link allows. */
  ghost predicate Trial(l: Link, idle: bool, f: Frame, times: seq<nat>) {
    && Lone(f, l.bt, l.ht)
    && LinkSamples(l, Signal(idle, StreamLog([f])), times, f.edges[0])
  }

  /** Once high, the frame stays high, so its only falling edge is its start. */
  ghost predicate OneFall(f: Frame) {
    forall i, j | 0 <= i <= j < 8 :: Bit(f.byte, i) ==> Bit(f.byte, j)
  }

  lemma {:induction false} LevelInFrame(idle: bool, f: Frame, bt: nat, ht: nat, i: nat, t: nat, high: bool)
    requires Lone(f, bt, ht) && 1 <= i <= 10 && FrameEdge(f, i).at <= t
    requires forall m | i <= m <= 10 && FrameEdge(f, m).at <= t :: FrameEdge(f, m).high == high
    ensures LevelAt(idle, StreamLog([f]), t) == high
  {
    var log := StreamLog([f]);
    forall m | 0 <= m <= 10 ensures log[m] == FrameEdge(f, m) { StreamAt([f], 0, m); }
    LevelFrom(idle, log, i, t, high);
  }

  /** 0x00 is low until the stop bit and high from then on. */
  lemma {:induction false} LevelOfZeros(idle: bool, f: Frame, bt: nat, ht: nat, t: nat)
    requires Lone(f, bt, ht) && f.byte == 0x00 && f.edges[0] <= t
    ensures LevelAt(idle, StreamLog([f]), t) == (f.edges[9] <= t)
  {
    if f.edges[9] <= t {
      LevelInFrame(idle, f, bt, ht, 10, t, true);
    } else {
      LevelInFrame(idle, f, bt, ht, 1, t, false);
    }
  }

  /** 0xFF is low during the start bit and high from then on. */
  lemma {:induction false} LevelOfOnes(idle: bool, f: Frame, bt: nat, ht: nat, t: nat)
    requires Lone(f, bt, ht) && f.byte == 0xFF && f.edges[0] <= t
    ensures LevelAt(idle, StreamLog([f]), t) == (f.edges[1] <= t)
  {
    if f.edges[1] <= t {
      LevelInFrame(idle, f, bt, ht, 2, t, true);
    } else {
      forall m | 1 < m <= 10 ensures FrameEdge(f, m).at > t {
        CellsSorted(f.edges, bt, ht, 1, m - 1);
      }
      LevelInFrame(idle, f, bt, ht, 1, t, false);
    }
  }

  /** 0x80 is low until data bit 7 and high from then on. */
  lemma {:induction false} LevelOfTopBit(idle: bool, f: Frame, bt: nat, ht: nat, t: nat)
    requires Lone(f, bt, ht) && f.byte == 0x80 && f.edges[0] <= t
    ensures LevelAt(idle, StreamLog([f]), t) == (f.edges[8] <= t)
  {
    if f.edges[8] <= t {
      LevelInFrame(idle, f, bt, ht, 9, t, true);
    } else {
      CellsSorted(f.edges, bt, ht, 8, 9);
      LevelInFrame(idle, f, bt, ht, 1, t, false);
    }
  }

  /** A data sample at the wrong level spoils the byte. */
  lemma WrongLevel(signal: nat -> bool, times: seq<nat>, invert: bool, b: bv8, i: nat)
    requires i < 8 && (|times| == 10 ==> signal(times[i + 1]) != Bit(b, i))
    ensures Decode(signal, times, invert) != Some(Flip(invert, b))
  {
    if |times| == 10 {
      var levels := DataLevels(signal, times);
      assert levels[i] != Bit(b, i);
      ByteOfUnique(levels, b);
      FlipTwice(invert, b);
      FlipTwice(invert, ByteOf(levels));
    }
  }

  /** The trial with equal cells and equally spaced samples. */
  lemma {:induction false} UniformTrial(
    l: Link, idle: bool, byte: bv8, cell: nat, first: nat, step: nat, last: nat) returns (f: Frame, times: seq<nat>)
    requires l.bt <= cell <= l.bt + l.ht && l.d0 + l.s <= first <= l.d1 + l.s + l.hr
    requires l.br <= step <= l.br + l.hr && l.e <= last <= l.e + l.hr
    ensures f == Frame(0, Grid(0, cell), byte) && Trial(l, idle, f, times)
    ensures times == Uniform(Signal(idle, StreamLog([f])), first, step, last)
  {
    f := Frame(0, Grid(0, cell), byte);
    GridCells(0, cell, l.bt, l.ht);
    times := Uniform(Signal(idle, StreamLog([f])), first, step, last);
    UniformSamples(Signal(idle, StreamLog([f])), first, step, last,
      l.d0 + l.s, l.d1 + l.s + l.hr, l.br, l.e, l.hr);
  }

  /** The trial `f`, `times` ends without the byte that was sent. */
  ghost predicate Fails(idle: bool, f: Frame, times: seq<nat>, invert: bool)
    requires |f.edges| == 11
  {
    Decode(Signal(idle, StreamLog([f])), times, invert) != Some(Flip(invert, f.byte))
  }

  /** A late start check fails on 0xFF. */
  lemma {:induction false} LateStart(l: Link, idle: bool, invert: bool) returns (f: Frame, times: seq<nat>)
    requires l.d0 <= l.d1 && l.bt <= l.d1 + l.s + l.hr
    ensures Trial(l, idle, f, times) && OneFall(f) && Fails(idle, f, times, invert)
  {
    var first := l.d1 + l.s + l.hr;
    f, times := UniformTrial(l, idle, 0xFF, l.bt, first, l.br, l.e);
    LevelOfOnes(idle, f, l.bt, l.ht, first);
  }

  /** A late last data sample fails on 0x00. */
  lemma {:induction false} LateData(l: Link, idle: bool, invert: bool) returns (f: Frame, times: seq<nat>)
    requires l.d0 <= l.d1 && 9 * l.bt <= l.d1 + l.s + 8 * l.br + 9 * l.hr
    ensures Trial(l, idle, f, times) && OneFall(f) && Fails(idle, f, times, invert)
  {
    var first, step := l.d1 + l.s + l.hr, l.br + l.hr;
    f, times := UniformTrial(l, idle, 0x00, l.bt, first, step, l.e);
    LevelOfZeros(idle, f, l.bt, l.ht, first + 8 * step);
    WrongLevel(Signal(idle, StreamLog([f])), times, invert, f.byte, 7);
  }

  /** An early first data sample fails on 0xFF. */
  lemma {:induction false} EarlyFirst(l: Link, idle: bool, invert: bool) returns (f: Frame, times: seq<nat>)
    requires l.d0 <= l.d1 && l.d0 + l.s + l.br < l.bt + l.ht
    ensures Trial(l, idle, f, times) && OneFall(f) && Fails(idle, f, times, invert)
  {
    f, times := UniformTrial(l, idle, 0xFF, l.bt + l.ht, l.d0 + l.s, l.br, l.e);
    LevelOfOnes(idle, f, l.bt, l.ht, l.d0 + l.s + l.br);
    WrongLevel(Signal(idle, StreamLog([f])), times, invert, f.byte, 0);
  }

  /** An early last data sample fails on 0x80. */
  lemma {:induction false} EarlyLast(l: Link, idle: bool, invert: bool) returns (f: Frame, times: seq<nat>)
    requires l.d0 <= l.d1 && l.d0 + l.s + 8 * l.br < 8 * (l.bt + l.ht)
    ensures Trial(l, idle, f, times) && OneFall(f) && Fails(idle, f, times, invert)
  {
    f, times := UniformTrial(l, idle, 0x80, l.bt + l.ht, l.d0 + l.s, l.br, l.e);
    LevelOfTopBit(idle, f, l.bt, l.ht, l.d0 + l.s + 8 * l.br);
    WrongLevel(Signal(idle, StreamLog([f])), times, invert, f.byte, 7);
  }

  /** An early stop check fails on 0x00. */
  lemma {:induction false} EarlyStop(l: Link, idle: bool, invert: bool) returns (f: Frame, times: seq<nat>)
    requires l.d0 <= l.d1 && l.d0 + l.s + 8 * l.br + l.e < 9 * (l.bt + l.ht)
    ensures Trial(l, idle, f, times) && OneFall(f) && Fails(idle, f, times, invert)
  {
    f, times := UniformTrial(l, idle, 0x00, l.bt + l.ht, l.d0 + l.s, l.br, l.e);
    LevelOfZeros(idle, f, l.bt, l.ht, l.d0 + l.s + 8 * l.br + l.e);
  }

  /** Outside the window one of five trials fails. */
  lemma {:induction false} OutsideWindow(l: Link, idle: bool, invert: bool) returns (f: Frame, times: seq<nat>)
    requires l.d0 <= l.d1 && !Window(l)
    ensures Trial(l, idle, f, times) && OneFall(f) && Fails(idle, f, times, invert)
  {
    if l.bt <= l.d1 + l.s + l.hr {
      f, times := LateStart(l, idle, invert);
    } else if 9 * l.bt <= l.d1 + l.s + 8 * l.br + 9 * l.hr {
      f, times := LateData(l, idle, invert);
    } else if l.d0 + l.s + l.br < l.bt + l.ht {
      f, times := EarlyFirst(l, idle, invert);
    } else if l.d0 + l.s + 8 * l.br < 8 * (l.bt + l.ht) {
      f, times := EarlyLast(l, idle, invert);
    } else {
      f, times := EarlyStop(l, idle, invert);
    }
  }

  /** Every byte, transmit schedule and receive schedule of the link decodes. */
  ghost predicate AlwaysDecodes(l: Link, idle: bool, invert: bool) {
    forall f: Frame, times: seq<nat> | Trial(l, idle, f, times) :: !Fails(idle, f, times, invert)
  }

  /** An isolated frame always decodes if and only if the link is in the window. */
  lemma WindowIsExact(l: Link, idle: bool, invert: bool)
    requires l.d0 <= l.d1
    ensures AlwaysDecodes(l, idle, invert) <==> Window(l)
  {
    if Window(l) {
      forall f: Frame, times: seq<nat> | Trial(l, idle, f, times) ensures !Fails(idle, f, times, invert)
      {
        DecodesFrame(l, idle, [f], 0, times, invert);
      }
    } else {
      var f, times := OutsideWindow(l, idle, invert);
    }
  }

  /** With equal bit times, no overshoot and a fixed latency d the window is
      B <= d + s + e and d + s < B. */
  lemma IdealWindow(b: nat, d: nat, s: nat, e: nat, idle: bool, invert: bool)
    ensures AlwaysDecodes(Link(b, 0, b, 0, d, d, s, e, 0), idle, invert) <==> d + s < b <= d + s + e
  {
    WindowIsExact(Link(b, 0, b, 0, d, d, s, e, 0), idle, invert);
  }

  /** A frame with a single falling edge gives a single run. */
  lemma {:induction false} SingleRun(l: Link, idle: bool, f: Frame, times: seq<nat>)
    requires Trial(l, idle, f, times) && OneFall(f)
    ensures Run(l, idle, StreamLog([f]), [Activation(1, times, times[|times| - 1])])
  {
    var log, acts := StreamLog([f]), [Activation(1, times, times[|times| - 1])];
    forall m | 0 <= m <= 10 ensures log[m] == FrameEdge(f, m) { StreamAt([f], 0, m); }
    forall j | 0 <= j < |log| && Falling(idle, log, j) ensures Served(log, acts, j) {
      if j == 1 {
        assert acts[0].edge == j;
      } else {
        assert false;
      }
    }
  }

  /** Two frames of 0xFF, back to back. */
  function BackToBack(bt: nat): (frames: seq<Frame>) {
    [Frame(0, Grid(0, bt), 0xFF), Frame(10 * bt, Grid(10 * bt, bt), 0xFF)]
  }

  lemma {:induction false} BackToBackFalls(bt: nat, ht: nat, idle: bool, j: nat)
    requires j < 22
    ensures InOrder(BackToBack(bt), bt, ht)
    ensures Falling(idle, StreamLog(BackToBack(bt)), j) <==> j == 1 || j == 12
    ensures StreamLog(BackToBack(bt))[12].at == 10 * bt
  {
    var frames := BackToBack(bt);
    GridCells(0, bt, bt, ht);
    GridCells(10 * bt, bt, bt, ht);
    assert Follows(frames, 1);
    var k, m := Locate(j);
    StreamAt(frames, k, m);
    if m > 0 { StreamAt(frames, k, m - 1); }
    StreamAt(frames, 1, 1);
  }

  /** The slowest run on a signal that is low at its start check. */
  lemma LateRun(l: Link, signal: nat -> bool) returns (times: seq<nat>)
    requires l.d0 <= l.d1 && !signal(l.d1 + l.s + l.hr)
    ensures LinkSamples(l, signal, times, 0)
    ensures |times| == 10 && times[9] == l.d1 + l.s + 8 * l.br + l.e + 10 * l.hr
  {
    var first, step := l.d1 + l.s + l.hr, l.br + l.hr;
    times := Uniform(signal, first, step, l.e + l.hr);
    UniformSamples(signal, first, step, l.e + l.hr, l.d0 + l.s, first, l.br, l.e, l.hr);
  }

  /** A first run that outlasts its frame leaves the second frame unseen. */
  lemma {:induction false} OverlapLosesFrame(l: Link, idle: bool) returns (frames: seq<Frame>, acts: seq<Activation>)
    requires l.d0 <= l.d1 && Window(l) && !StreamWindow(l)
    ensures InOrder(frames, l.bt, l.ht) && Run(l, idle, StreamLog(frames), acts)
    ensures |frames| == 2 && |acts| == 1
  {
    frames := BackToBack(l.bt);
    var log := StreamLog(frames);
    BackToBackFalls(l.bt, l.ht, idle, 1);
    StartIsLow(l, idle, frames, 0, l.d1 + l.s + l.hr);
    var times := LateRun(l, Signal(idle, log));
    acts := [Activation(1, times, times[9] + l.x)];
    StreamAt(frames, 0, 1);
    forall j | 0 <= j < |log| && Falling(idle, log, j) ensures Served(log, acts, j) {
      BackToBackFalls(l.bt, l.ht, idle, j);
      assert acts[0].edge == j || Busy(log, acts[0], j);
    }
  }

  /** Every stream and every way the receiver may be triggered and delayed by it
      delivers exactly the bytes sent. */
  ghost predicate AlwaysDelivers(l: Link, idle: bool) {
    forall frames: seq<Frame>, acts: seq<Activation> |
      InOrder(frames, l.bt, l.ht) && Run(l, idle, StreamLog(frames), acts) ::
      Delivered(Signal(idle, StreamLog(frames)), acts) == Payload(frames)
  }

  lemma {:induction false} DeliveredLength(signal: nat -> bool, acts: seq<Activation>)
    ensures |Delivered(signal, acts)| <= |acts|
  {
    if acts != [] { DeliveredLength(signal, acts[..|acts| - 1]); }
  }

  lemma SingleDelivery(signal: nat -> bool, a: Activation)
    ensures Delivered(signal, [a]) ==
      match Decode(signal, a.times, false) case None => [] case Some(b) => [b]
  {
    assert [a][..0] == [];
  }

  /** Outside the window a single frame is not delivered. */
  lemma {:induction false} LosesByte(l: Link, idle: bool) returns (f: Frame, acts: seq<Activation>)
    requires l.d0 <= l.d1 && !Window(l)
    ensures InOrder([f], l.bt, l.ht) && Run(l, idle, StreamLog([f]), acts)
    ensures Delivered(Signal(idle, StreamLog([f])), acts) != Payload([f])
  {
    var times;
    f, times := OutsideWindow(l, idle, false);
    acts := [Activation(1, times, times[|times| - 1])];
    SingleRun(l, idle, f, times);
    SingleDelivery(Signal(idle, StreamLog([f])), acts[0]);
    assert Payload([f]) == [f.byte];
  }

  /** All streams are received intact if and only if the link is in the stream
      window. */
  lemma StreamWindowIsExact(l: Link, idle: bool)
    requires l.d0 <= l.d1
    ensures AlwaysDelivers(l, idle) <==> StreamWindow(l)
  {
    if StreamWindow(l) {
      forall frames: seq<Frame>, acts: seq<Activation> |
        InOrder(frames, l.bt, l.ht) && Run(l, idle, StreamLog(frames), acts)
        ensures Delivered(Signal(idle, StreamLog(frames)), acts) == Payload(frames)
      {
        RoundTrip(l, idle, frames, acts);
      }
    } else if Window(l) {
      var frames, acts := OverlapLosesFrame(l, idle);
      DeliveredLength(Signal(idle, StreamLog(frames)), acts);
    } else {
      var f, acts := LosesByte(l, idle);
    }
  }
}
