/** When a receiver that samples at fixed delays decodes what a transmitter sends. */
module Timing {
  import opened Bits
  import opened Option
  import opened Wire

  /** Everything the timing of a link depends on, in one common unit of time.
      Transmitter cells last `bt` to `bt + ht`. The handler starts its first wait
      `d0` to `d1` after the falling edge of the start bit; its samples then follow
      after `s`, eight times `br`, and `e`, each up to `hr` later than that; and it
      is over at most `x` after its last sample. The windows are exact for all
      schedules within these bounds. What bounds a driver keeps is said where the
      driver is: cells and samples have the same form, `CycleClock.Least` of a
      wait up to `CycleClock.Slack` more. */
  datatype Link = Link(bt: nat, ht: nat, br: nat, hr: nat, d0: nat, d1: nat, s: nat, e: nat, x: nat)

  /** The sampling times of one handler run whose first sample falls in [lo, hi]:
      a high start sample ends the run, otherwise eight data samples and the
      stop sample follow. */
  ghost predicate Samples(signal: nat -> bool, times: seq<nat>, lo: nat, hi: nat, br: nat, e: nat, hr: nat) {
    && |times| >= 1
    && lo <= times[0] <= hi
    && if signal(times[0]) then |times| == 1 else FullSamples(times, br, e, hr)
  }

  ghost predicate FullSamples(times: seq<nat>, br: nat, e: nat, hr: nat) {
    && |times| == 10
    && Spaced(times[..9], br, hr)
    && StepLength(times, 8, e, hr)
  }

  /** The sampling times of a run started by a falling edge at time `edge`. */
  ghost predicate LinkSamples(l: Link, signal: nat -> bool, times: seq<nat>, edge: nat) {
    Samples(signal, times, edge + l.d0 + l.s, edge + l.d1 + l.s + l.hr, l.br, l.e, l.hr)
  }

  /** The levels of the eight data samples. */
  function DataLevels(signal: nat -> bool, times: seq<nat>): (levels: seq<bool>)
    requires |times| == 10
    ensures |levels| == 8
  {
    seq(8, i requires 0 <= i < 8 => signal(times[i + 1]))
  }

  /** What one handler run stores: nothing when the start sample ended it or the
      stop sample is low, else the byte whose bit i is the level at data sample i. */
  function Decode(signal: nat -> bool, times: seq<nat>, invert: bool): Option<bv8>
  {
    if |times| != 10 || signal(times[0]) || !signal(times[9]) then None
    else Some(Flip(invert, ByteOf(DataLevels(signal, times))))
  }

  /** The five inequalities under which every sample lands in its own cell: the
      start check, the first and last data samples from both sides, and the stop
      check. */
  predicate Window(l: Link) {
    && l.d1 + l.s + l.hr < l.bt
    && l.d1 + l.s + 8 * l.br + 9 * l.hr < 9 * l.bt
    && l.bt + l.ht <= l.d0 + l.s + l.br
    && 8 * (l.bt + l.ht) <= l.d0 + l.s + 8 * l.br
    && 9 * (l.bt + l.ht) <= l.d0 + l.s + 8 * l.br + l.e
  }

  /** In addition the handler is done before the stop bit is over. */
  predicate StreamWindow(l: Link) {
    Window(l) && l.d1 + l.s + 8 * l.br + l.e + 10 * l.hr + l.x < 10 * l.bt
  }

  lemma {:induction false} TimesSpan(times: seq<nat>, br: nat, e: nat, hr: nat, k: nat)
    requires FullSamples(times, br, e, hr) && k <= 8
    ensures times[0] + k * br <= times[k] <= times[0] + k * (br + hr)
    decreases k
  {
    if k > 0 {
      TimesSpan(times, br, e, hr, k - 1);
      assert StepLength(times[..9], k - 1, br, hr);
      assert k * br == (k - 1) * br + br && k * (br + hr) == (k - 1) * (br + hr) + (br + hr);
    }
  }

  /** A quantity that changes linearly with the sample number is non-negative at
      every sample when it is so at the first and the last. */
  lemma Linear(c: int, m: int, first: nat, last: nat, k: nat)
    requires first <= k <= last
    requires c + first * m >= 0 && c + last * m >= 0
    ensures c + k * m >= 0
  {
    if m >= 0 {
      assert (k - first) * m >= 0;
    } else {
      assert (last - k) * m <= 0;
    }
  }

  lemma DataSampleNotEarly(l: Link, k: nat)
    requires Window(l) && k <= 8
    ensures k * (l.bt + l.ht) <= l.d0 + l.s + k * l.br
  {
    if k > 0 {
      Linear(l.d0 + l.s, l.br - (l.bt + l.ht), 1, 8, k);
      assert k * (l.br - (l.bt + l.ht)) == k * l.br - k * (l.bt + l.ht);
    }
  }

  lemma DataSampleNotLate(l: Link, k: nat)
    requires Window(l) && k <= 8
    ensures l.d1 + l.s + l.hr + k * (l.br + l.hr) < (k + 1) * l.bt
  {
    Linear(l.bt - 1 - l.d1 - l.s - l.hr, l.bt - (l.br + l.hr), 0, 8, k);
    assert k * (l.bt - (l.br + l.hr)) == k * l.bt - k * (l.br + l.hr);
    assert (k + 1) * l.bt == k * l.bt + l.bt;
  }

  lemma SampleNotEarly(l: Link, edges: seq<nat>, times: seq<nat>, k: nat)
    requires Window(l) && Cells(edges, l.bt, l.ht) && FullSamples(times, l.br, l.e, l.hr) && k <= 8
    requires edges[0] + l.d0 + l.s <= times[0] <= edges[0] + l.d1 + l.s + l.hr
    ensures edges[k] <= times[k]
  {
    TimesSpan(times, l.br, l.e, l.hr, k);
    CellSpan(edges, l.bt, l.ht, k);
    DataSampleNotEarly(l, k);
  }

  lemma SampleNotLate(l: Link, edges: seq<nat>, times: seq<nat>, k: nat)
    requires Window(l) && Cells(edges, l.bt, l.ht) && FullSamples(times, l.br, l.e, l.hr) && k <= 8
    requires edges[0] + l.d0 + l.s <= times[0] <= edges[0] + l.d1 + l.s + l.hr
    ensures times[k] < edges[k + 1]
  {
    TimesSpan(times, l.br, l.e, l.hr, k);
    CellSpan(edges, l.bt, l.ht, k + 1);
    DataSampleNotLate(l, k);
  }

  /** Inside the window, sample k falls in cell k for every pair of schedules. */
  lemma SampleInCell(l: Link, edges: seq<nat>, times: seq<nat>, k: nat)
    requires Window(l) && Cells(edges, l.bt, l.ht) && FullSamples(times, l.br, l.e, l.hr) && k <= 8
    requires edges[0] + l.d0 + l.s <= times[0] <= edges[0] + l.d1 + l.s + l.hr
    ensures edges[k] <= times[k] < edges[k + 1]
  {
    SampleNotEarly(l, edges, times, k);
    SampleNotLate(l, edges, times, k);
  }

  /** The stop check is made after the stop bit has begun, and in a stream before
      it is over. */
  lemma StopInCell(l: Link, edges: seq<nat>, times: seq<nat>)
    requires Window(l) && Cells(edges, l.bt, l.ht) && FullSamples(times, l.br, l.e, l.hr)
    requires edges[0] + l.d0 + l.s <= times[0] <= edges[0] + l.d1 + l.s + l.hr
    ensures edges[9] <= times[9]
    ensures StreamWindow(l) ==> times[9] + l.x < edges[10]
  {
    TimesSpan(times, l.br, l.e, l.hr, 8);
    assert StepLength(times, 8, l.e, l.hr);
    CellSpan(edges, l.bt, l.ht, 9);
    CellSpan(edges, l.bt, l.ht, 10);
  }

  lemma {:induction false} StartIsLow(l: Link, idle: bool, frames: seq<Frame>, k: nat, t: nat)
    requires Window(l) && InOrder(frames, l.bt, l.ht) && k < |frames|
    requires frames[k].edges[0] <= t <= frames[k].edges[0] + l.d1 + l.s + l.hr
    ensures !LevelAt(idle, StreamLog(frames), t)
  {
    CellSpan(frames[k].edges, l.bt, l.ht, 1);
    LevelInCell(idle, frames, l.bt, l.ht, k, 0, t);
  }

  lemma {:induction false} DataIsBit(l: Link, idle: bool, frames: seq<Frame>, k: nat, times: seq<nat>, i: nat)
    requires Window(l) && InOrder(frames, l.bt, l.ht) && k < |frames| && i < 8
    requires FullSamples(times, l.br, l.e, l.hr)
    requires var edge := frames[k].edges[0]; edge + l.d0 + l.s <= times[0] <= edge + l.d1 + l.s + l.hr
    ensures LevelAt(idle, StreamLog(frames), times[i + 1]) == Bit(frames[k].byte, i)
  {
    SampleInCell(l, frames[k].edges, times, i + 1);
    LevelInCell(idle, frames, l.bt, l.ht, k, i + 1, times[i + 1]);
  }

  lemma {:induction false} StopIsHigh(l: Link, idle: bool, frames: seq<Frame>, k: nat, times: seq<nat>)
    requires Window(l) && InOrder(frames, l.bt, l.ht) && k < |frames|
    requires StreamWindow(l) || k == |frames| - 1
    requires FullSamples(times, l.br, l.e, l.hr)
    requires var edge := frames[k].edges[0]; edge + l.d0 + l.s <= times[0] <= edge + l.d1 + l.s + l.hr
    ensures LevelAt(idle, StreamLog(frames), times[9])
  {
    StopInCell(l, frames[k].edges, times);
    if times[9] < frames[k].edges[10] {
      LevelInCell(idle, frames, l.bt, l.ht, k, 9, times[9]);
    } else {
      LevelAfterLast(idle, frames, l.bt, l.ht, times[9]);
    }
  }

  /** A run started by the start bit of frame k decodes that frame, provided it
      is over before the frame ends or no other frame follows. */
  lemma {:induction false} DecodesFrame(l: Link, idle: bool, frames: seq<Frame>, k: nat, times: seq<nat>, invert: bool)
    requires Window(l) && InOrder(frames, l.bt, l.ht) && k < |frames|
    requires StreamWindow(l) || k == |frames| - 1
    requires LinkSamples(l, Signal(idle, StreamLog(frames)), times, frames[k].edges[0])
    ensures |times| == 10
    ensures Decode(Signal(idle, StreamLog(frames)), times, invert) == Some(Flip(invert, frames[k].byte))
  {
    var signal := Signal(idle, StreamLog(frames));
    StartIsLow(l, idle, frames, k, times[0]);
    StopIsHigh(l, idle, frames, k, times);
    var levels := DataLevels(signal, times);
    forall i | 0 <= i < 8 ensures Bit(frames[k].byte, i) == levels[i] {
      DataIsBit(l, idle, frames, k, times, i);
    }
    ByteOfUnique(levels, frames[k].byte);
  }
}
