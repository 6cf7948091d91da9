/** The line between transmitter and receiver, as the log of the pin writes.

    Here and in the modules built on this one, lemmas about frames and logs turn
    default induction off: it only adds hypotheses that no proof uses. */
module Wire {
  import opened Bits

  /** The pin was driven to `high` at time `at`. */
  datatype Edge = Edge(at: nat, high: bool)

  /** One call of `sw_write`: the time of the leading high write, the times of the
      ten cell starts (start bit, eight data bits, stop bit) and the first moment
      after the stop bit's wait at which the pin can be written again, and the byte
      as it is put on the wire. */
  datatype Frame = Frame(pre: nat, edges: seq<nat>, byte: bv8)

  /** The level at time `t`: that of the last write not later than `t`. */
  function LevelAt(idle: bool, log: seq<Edge>, t: nat): bool {
    if log == [] then idle
    else if log[|log| - 1].at <= t then log[|log| - 1].high
    else LevelAt(idle, log[..|log| - 1], t)
  }

  function Signal(idle: bool, log: seq<Edge>): nat -> bool {
    (t: nat) => LevelAt(idle, log, t)
  }

  /** Writes that come later do not disturb the past. */
  lemma {:induction false} LevelFrom(idle: bool, log: seq<Edge>, j: nat, t: nat, high: bool)
    requires j < |log| && log[j].at <= t
    requires forall m | j <= m < |log| && log[m].at <= t :: log[m].high == high
    ensures LevelAt(idle, log, t) == high
  {
    if log[|log| - 1].at > t {
      LevelFrom(idle, log[..|log| - 1], j, t, high);
    }
  }

  /** The m-th of the eleven pin writes of a frame. */
  function FrameEdge(f: Frame, m: nat): Edge
    requires |f.edges| == 11 && m < 11
  {
    if m == 0 then Edge(f.pre, true)
    else if m == 1 then Edge(f.edges[0], false)
    else if m < 10 then Edge(f.edges[m - 1], Bit(f.byte, m - 2))
    else Edge(f.edges[9], true)
  }

  function FrameLog(f: Frame): seq<Edge>
    requires |f.edges| == 11
  {
    seq(11, m requires 0 <= m < 11 => FrameEdge(f, m))
  }

  ghost predicate Shaped(frames: seq<Frame>) {
    forall k | 0 <= k < |frames| :: |frames[k].edges| == 11
  }

  /** The log of a sequence of frames. */
  function StreamLog(frames: seq<Frame>): (log: seq<Edge>)
    requires Shaped(frames)
    ensures |log| == 11 * |frames|
  {
    if frames == [] then []
    else StreamLog(frames[..|frames| - 1]) + FrameLog(frames[|frames| - 1])
  }

  /** The m-th write of the k-th frame is entry 11k + m of the log. */
  lemma {:induction false} StreamAt(frames: seq<Frame>, k: nat, m: nat)
    requires Shaped(frames) && k < |frames| && m < 11
    ensures StreamLog(frames)[11 * k + m] == FrameEdge(frames[k], m)
  {
    if k < |frames| - 1 {
      StreamAt(frames[..|frames| - 1], k, m);
    }
  }

  /** Every log index names one write of one frame. */
  lemma Locate(n: nat) returns (k: nat, m: nat)
    ensures n == 11 * k + m && m < 11
  {
    k, m := n / 11, n % 11;
  }

  /** The step from time k to time k + 1 takes at least `wait` and at most `slack` more. */
  ghost predicate StepLength(times: seq<nat>, k: nat, wait: nat, slack: nat)
    requires k + 1 < |times|
  {
    times[k] + wait <= times[k + 1] <= times[k] + wait + slack
  }

  ghost predicate Spaced(times: seq<nat>, wait: nat, slack: nat) {
    forall k | 0 <= k < |times| - 1 :: StepLength(times, k, wait, slack)
  }

  lemma SpacedExtend(times: seq<nat>, wait: nat, slack: nat, at: nat)
    requires times != [] && Spaced(times, wait, slack)
    requires times[|times| - 1] + wait <= at <= times[|times| - 1] + wait + slack
    ensures Spaced(times + [at], wait, slack)
  {
    forall k | 0 <= k < |times| ensures StepLength(times + [at], k, wait, slack) {
      assert k == |times| - 1 || StepLength(times, k, wait, slack);
    }
  }

  ghost predicate Cells(edges: seq<nat>, bt: nat, ht: nat) {
    |edges| == 11 && Spaced(edges, bt, ht)
  }

  /** Frame k begins no earlier than the frame before it ends. */
  ghost predicate Follows(frames: seq<Frame>, k: nat)
    requires Shaped(frames) && 0 < k < |frames|
  {
    frames[k - 1].edges[10] <= frames[k].pre
  }

  /** Frames follow one another with an arbitrary idle gap between them. */
  ghost predicate InOrder(frames: seq<Frame>, bt: nat, ht: nat) {
    && Shaped(frames)
    && (forall k | 0 <= k < |frames| :: Cells(frames[k].edges, bt, ht) && frames[k].pre <= frames[k].edges[0])
    && (forall k | 0 < k < |frames| :: Follows(frames, k))
  }

  /** Cell boundary k, counted from the start of the frame. */
  lemma {:induction false} CellSpan(edges: seq<nat>, bt: nat, ht: nat, k: nat)
    requires Cells(edges, bt, ht) && k <= 10
    ensures edges[0] + k * bt <= edges[k] <= edges[0] + k * (bt + ht)
    decreases k
  {
    if k > 0 {
      CellSpan(edges, bt, ht, k - 1);
      assert StepLength(edges, k - 1, bt, ht);
      assert k * bt == (k - 1) * bt + bt && k * (bt + ht) == (k - 1) * (bt + ht) + (bt + ht);
    }
  }

  lemma {:induction false} CellsSorted(edges: seq<nat>, bt: nat, ht: nat, i: nat, j: nat)
    requires Cells(edges, bt, ht) && i <= j <= 10
    ensures edges[i] <= edges[j]
    decreases j
  {
    if i < j {
      CellsSorted(edges, bt, ht, i, j - 1);
      assert StepLength(edges, j - 1, bt, ht);
    }
  }

  /** A frame ends before any later frame begins. */
  lemma {:induction false} FramesApart(frames: seq<Frame>, bt: nat, ht: nat, i: nat, j: nat)
    requires InOrder(frames, bt, ht) && i < j < |frames|
    ensures frames[i].edges[10] <= frames[j].pre
    decreases j
  {
    assert Follows(frames, j);
    if i < j - 1 {
      FramesApart(frames, bt, ht, i, j - 1);
      CellsSorted(frames[j - 1].edges, bt, ht, 0, 10);
    }
  }

  /** The writes after write i of a frame, in that frame or a later one, happen
      no earlier than the cell boundary `edges[i]`. */
  lemma {:induction false} EdgesSorted(frames: seq<Frame>, bt: nat, ht: nat, k: nat, i: nat, q: nat, m: nat)
    requires InOrder(frames, bt, ht) && k <= q < |frames| && 1 <= i <= 10 && m < 11
    requires q == k ==> i < m
    ensures frames[k].edges[i] <= FrameEdge(frames[q], m).at
  {
    if q == k {
      CellsSorted(frames[k].edges, bt, ht, i, m - 1);
    } else {
      CellsSorted(frames[k].edges, bt, ht, i, 10);
      FramesApart(frames, bt, ht, k, q);
      if m > 0 { CellsSorted(frames[q].edges, bt, ht, 0, m - 1); }
    }
  }

  lemma {:induction false} StreamSorted(frames: seq<Frame>, bt: nat, ht: nat, k: nat, i: nat, n: nat)
    requires InOrder(frames, bt, ht) && k < |frames| && 1 <= i <= 10
    requires 11 * k + i < n < 11 * |frames|
    ensures frames[k].edges[i] <= StreamLog(frames)[n].at
  {
    var q, m := Locate(n);
    StreamAt(frames, q, m);
    EdgesSorted(frames, bt, ht, k, i, q, m);
  }

  /** During cell i of frame k the line carries the level written for that cell;
      the stop level lasts until the next frame's start bit. */
  lemma {:induction false} LevelInCell(idle: bool, frames: seq<Frame>, bt: nat, ht: nat, k: nat, i: nat, t: nat)
    requires InOrder(frames, bt, ht) && k < |frames| && i < 10
    requires frames[k].edges[i] <= t < frames[k].edges[i + 1]
    ensures LevelAt(idle, StreamLog(frames), t) == FrameEdge(frames[k], i + 1).high
  {
    var log := StreamLog(frames);
    StreamAt(frames, k, i + 1);
    forall n | 11 * k + i + 1 <= n < |log| && log[n].at <= t
      ensures log[n].high == FrameEdge(frames[k], i + 1).high
    {
      if n > 11 * k + (i + 1) {
        StreamSorted(frames, bt, ht, k, i + 1, n);
        assert false;
      }
    }
    LevelFrom(idle, log, 11 * k + i + 1, t, FrameEdge(frames[k], i + 1).high);
  }

  /** The order of the cells: a low start bit, the digits of the byte from the least
      significant on, and a high stop bit. */
  lemma {:induction false} CellOrder(
    idle: bool, frames: seq<Frame>, bt: nat, ht: nat, k: nat, i: nat, t: nat)
    requires InOrder(frames, bt, ht) && k < |frames| && i < 10
    requires frames[k].edges[i] <= t < frames[k].edges[i + 1]
    ensures LevelAt(idle, StreamLog(frames), t) ==
      if i == 0 then false else if i == 9 then true else Digit(frames[k].byte as int, i - 1)
  {
    LevelInCell(idle, frames, bt, ht, k, i, t);
    if 1 <= i <= 8 { BitIsDigit(frames[k].byte, i - 1); }
  }

  /** After the last frame the line stays high. */
  lemma {:induction false} LevelAfterLast(idle: bool, frames: seq<Frame>, bt: nat, ht: nat, t: nat)
    requires InOrder(frames, bt, ht) && frames != []
    requires frames[|frames| - 1].edges[9] <= t
    ensures LevelAt(idle, StreamLog(frames), t)
  {
    var k := |frames| - 1;
    StreamAt(frames, k, 10);
    LevelFrom(idle, StreamLog(frames), 11 * k + 10, t, true);
  }
}
