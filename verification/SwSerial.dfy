/** The software UART driver: `SwSerial` and the functions on it.

    The clock is a parameter (see `CycleClock`); the receive pin is a signal, a
    level for every time; what a call writes to the transmit pin is its result. */
module SwSerialDriver {
  import opened Bits
  import opened ByteQueue
  import opened CInt
  import opened CycleClock
  import opened Option
  import opened Ring
  import opened Timing
  import opened Wire

  /** The edge that triggers the receive interrupt. */
  datatype Trigger = PosEdge | NegEdge

  datatype BitTiming = BitTiming(bitTime: Word, startTime: Word, endTime: Word)

  /** Whole CPU cycles per bit. */
  function BitTime(clockHz: Word, baud: Word): Word
    requires baud != 0
  {
    QuotientAtMost(clockHz, baud);
    clockHz / baud
  }

  /** The constants `sw_open` computes, in 32-bit arithmetic. */
  function TimingFor(clockHz: Word, baud: Word): BitTiming
    requires baud != 0
  {
    var bitTime := BitTime(clockHz, baud);
    match baud
    case 115200 => BitTiming(bitTime, bitTime / 256, U32(bitTime * 127) / 256)
    case 9600 => BitTiming(bitTime, bitTime / 9, U32(bitTime * 8) / 9)
    case _ => BitTiming(bitTime, bitTime / 9, U32(bitTime * 8) / 9)
  }

  /** After i data samples the top i bits of the shift register are their levels. */
  ghost predicate Collected(rec: bv8, i: nat, signal: nat -> bool, times: seq<nat>) {
    && i <= 8
    && |times| == i + 1
    && forall k | 8 - i <= k < 8 :: Bit(rec, k) == signal(times[i + k - 7])
  }

  lemma CollectOne(rec: bv8, i: nat, signal: nat -> bool, times: seq<nat>, at: nat)
    requires Collected(rec, i, signal, times) && i < 8
    ensures Collected(if signal(at) then (rec >> 1) | 0x80 else rec >> 1, i + 1, signal, times + [at])
  {
    var next := if signal(at) then (rec >> 1) | 0x80 else rec >> 1;
    forall k | 7 - i <= k < 8 ensures Bit(next, k) == signal((times + [at])[i + 1 + k - 7]) {
      ShiftIn(rec, signal(at), k);
    }
  }

  /** The sampling loop of the handler, entered at the time of the start check. */
  method SampleByte(signal: nat -> bool, gap: nat -> nat, g: nat, start: nat, bitTime: Word)
    returns (rec: bv8, times: seq<nat>)
    requires Steady(gap, g) && bitTime + g < TWO32
    ensures |times| == 9 && times[0] == start && Spaced(times, Least(bitTime), Slack(g))
    ensures forall k | 0 <= k < 8 :: Bit(rec, k) == signal(times[k + 1])
  {
    rec, times := 0, [start];
    var i := 0;
    while i != 8
      invariant 0 <= i <= 8 && Collected(rec, i, signal, times)
      invariant times[0] == start && Spaced(times, Least(bitTime), Slack(g))
      decreases 8 - i
    {
      var now := WaitThenAccess(gap, g, times[i], bitTime);
      CollectOne(rec, i, signal, times, now);
      SpacedExtend(times, Least(bitTime), Slack(g), now);
      rec := rec >> 1;
      if signal(now) {
        rec := rec | 0x80;
      }
      times := times + [now];
      i := i + 1;
    }
  }

  /** A run that passed its start check, put together from its samples. */
  lemma FullRun(
    signal: nat -> bool, data: seq<nat>, stop: nat, rec: bv8, br: nat, e: nat, hr: nat, invert: bool)
    requires |data| == 9 && Spaced(data, br, hr) && data[8] + e <= stop <= data[8] + e + hr
    requires !signal(data[0]) && forall k | 0 <= k < 8 :: Bit(rec, k) == signal(data[k + 1])
    ensures FullSamples(data + [stop], br, e, hr)
    ensures Decode(signal, data + [stop], invert) == if signal(stop) then Some(Flip(invert, rec)) else None
  {
    var times := data + [stop];
    assert times[..9] == data;
    ByteOfUnique(DataLevels(signal, times), rec);
  }

  /** After i data bits the low bits of the byte being sent are those still to go. */
  ghost predicate Remaining(out: bv8, i: nat, byte: bv8) {
    i <= 8 && forall k | 0 <= k < 8 - i :: Bit(out, k) == Bit(byte, i + k)
  }

  lemma SendOne(out: bv8, i: nat, byte: bv8)
    requires Remaining(out, i, byte) && i < 8
    ensures (out & 1 != 0) == Bit(byte, i)
    ensures Remaining(out >> 1, i + 1, byte)
  {
    assert Bit(out, 0) == (out & 1 != 0);
    var rest := out >> 1;
    forall k | 0 <= k < 7 - i ensures Bit(rest, k) == Bit(byte, i + 1 + k) { ShiftRight(out, k); }
  }

  /** The first pin writes of the frame (pre, edges, byte). */
  ghost predicate Sent(wave: seq<Edge>, pre: nat, edges: seq<nat>, byte: bv8) {
    && 1 <= |edges| <= 9
    && |wave| == |edges| + 1
    && wave[0] == Edge(pre, true)
    && wave[1] == Edge(edges[0], false)
    && forall m | 2 <= m < |wave| :: wave[m] == Edge(edges[m - 1], Bit(byte, m - 2))
  }

  /** The stop bit completes the frame. */
  lemma SentAll(wave: seq<Edge>, pre: nat, edges: seq<nat>, byte: bv8, stop: nat, done: nat)
    requires Sent(wave, pre, edges, byte) && |edges| == 9
    ensures wave + [Edge(stop, true)] == FrameLog(Frame(pre, edges + [stop, done], byte))
  {
    var f := Frame(pre, edges + [stop, done], byte);
    forall m | 0 <= m < 11 ensures (wave + [Edge(stop, true)])[m] == FrameEdge(f, m) {
    }
  }

  /** The sending loop: from the falling edge of the start bit at `first`, the eight
      data bits of `byte`. The pin is next written at `at`, for the stop bit. */
  method SendBits(byte: bv8, gap: nat -> nat, g: nat, pre: nat, first: nat, bitTime: Word)
    returns (wave: seq<Edge>, edges: seq<nat>, at: nat)
    requires Steady(gap, g) && bitTime + g < TWO32
    ensures Sent(wave, pre, edges, byte) && |edges| == 9 && edges[0] == first
    ensures Spaced(edges, Least(bitTime), Slack(g))
    ensures edges[8] + Least(bitTime) <= at <= edges[8] + Least(bitTime) + Slack(g)
  {
    var out := byte;
    wave, edges := [Edge(pre, true), Edge(first, false)], [first];
    at := WaitThenAccess(gap, g, first, bitTime);
    var i := 0;
    while i != 8
      invariant 0 <= i <= 8 && |edges| == i + 1 && edges[0] == first
      invariant Spaced(edges, Least(bitTime), Slack(g))
      invariant edges[i] + Least(bitTime) <= at <= edges[i] + Least(bitTime) + Slack(g)
      invariant Sent(wave, pre, edges, byte) && Remaining(out, i, byte)
      decreases 8 - i
    {
      SendOne(out, i, byte);
      SpacedExtend(edges, Least(bitTime), Slack(g), at);
      wave, edges := wave + [Edge(at, out & 1 != 0)], edges + [at];
      at := WaitThenAccess(gap, g, at, bitTime);
      out := out >> 1;
      i := i + 1;
    }
  }

  class SwSerial {
    const invert: bool
    const buffSize: Word
    const buffer: array<bv8>
    var bitTime: Word
    var rxStartTime: Word
    var rxEndTime: Word
    var overflow: bool
    var inPos: Word
    var outPos: Word

    ghost predicate Valid()
      reads this
    {
      buffer.Length == buffSize && Indices(buffSize, outPos, inPos)
    }

    /** The receive queue this object stands for. */
    ghost function Abs(): (q: Queue)
      requires Valid()
      reads this, buffer
      ensures Bounded(q)
    {
      FullIffNextMeetsOut(buffer[..], outPos, inPos);
      Queue(buffSize - 1, Slice(buffer[..], outPos, inPos), overflow)
    }

    /** The object `sw_new` makes when both allocations succeed. A size below 1 goes
        through as it does in C, but gives an object nothing else may be called on. */
    constructor (inverse: bool, size: int)
      requires -TWO31 <= size < TWO31
      ensures fresh(buffer) && invert == inverse && buffSize == U32(size)
      ensures Valid() <==> size >= 1
      ensures size >= 1 ==> Abs() == Queue(size - 1, [], false)
    {
      invert := inverse;
      overflow := false;
      inPos, outPos := 0, 0;
      buffSize := U32(size);
      buffer := new bv8[if size < 0 then 0 else size];
      bitTime, rxStartTime, rxEndTime := 0, 0, 0;
    }

    /** `sw_new`: `gotSelf` and `gotBuffer` say how its allocations turn out. */
    static method New(inverse: bool, size: int, gotSelf: bool, gotBuffer: bool) returns (r: SwSerial?)
      requires -TWO31 <= size < TWO31
      ensures r != null <==> gotSelf && gotBuffer
      ensures r != null ==> fresh(r) && fresh(r.buffer) && r.invert == inverse && (r.Valid() <==> size >= 1)
      ensures r != null && size >= 1 ==> r.Abs() == Queue(size - 1, [], false)
    {
      if gotSelf && gotBuffer {
        r := new SwSerial(inverse, size);
      } else {
        r := null;
      }
    }

    /** The end of the receive handler: the byte goes into the buffer unless that
        is full. */
    method Store(rec: bv8)
      requires Valid()
      modifies this`inPos, this`overflow, buffer
      ensures Valid()
      ensures Abs() == Offer(old(Abs()), Flip(invert, rec))
    {
      ghost var was := buffer[..];
      FullIffNextMeetsOut(was, outPos, inPos);
      RoundTripInt(Next(buffSize, inPos));
      var next := I32(Next(buffSize, inPos));
      if U32(next) != outPos {
        var b := if invert then !rec else rec;
        buffer[inPos] := b;
        assert buffer[..] == was[inPos := b];
        StoreIsInvisible(was, outPos, inPos, b);
        PublishAppends(buffer[..], outPos, inPos);
        NextIsSuccessor(buffSize, inPos);
        inPos := U32(next);
      } else {
        overflow := true;
      }
    }

    /** One run of the interrupt handler on any line at all. `times` are the times
        at which it looks at the line. It stores what `Decode` says and nothing
        else, and changes neither `outPos` nor the timing. */
    method RxHandler(signal: nat -> bool, gap: nat -> nat, g: nat, entry: nat) returns (times: seq<nat>)
      requires Valid() && Steady(gap, g)
      requires rxStartTime + g < TWO32 && bitTime + g < TWO32 && rxEndTime + g < TWO32
      modifies this`inPos, this`overflow, buffer
      ensures Valid()
      ensures Samples(signal, times, entry + Least(rxStartTime), entry + Least(rxStartTime) + Slack(g),
                      Least(bitTime), Least(rxEndTime), Slack(g))
      ensures Abs() == match Decode(signal, times, invert)
                       case None => old(Abs())
                       case Some(b) => Offer(old(Abs()), b)
    {
      var now := WaitThenAccess(gap, g, entry, rxStartTime);
      times := [now];
      if !signal(now) {
        var rec;
        rec, times := SampleByte(signal, gap, g, now, bitTime);
        now := WaitThenAccess(gap, g, times[8], rxEndTime);
        FullRun(signal, times, now, rec, Least(bitTime), Least(rxEndTime), Slack(g), invert);
        times := times + [now];
        if signal(now) {
          Store(rec);
        }
      }
    }

    method Read() returns (r: int)
      requires Valid()
      modifies this`outPos
      ensures Valid()
      ensures r == Front(old(Abs())) && Abs() == Take(old(Abs()))
    {
      EmptyIffIndicesMeet(buffer[..], outPos, inPos);
      if inPos != outPos {
        AdvanceRemoves(buffer[..], outPos, inPos);
        NextIsSuccessor(buffSize, outPos);
        var ch := buffer[outPos];
        outPos := Next(buffSize, outPos);
        return ch as int;
      }
      return -1;
    }

    method Peek() returns (r: int)
      requires Valid()
      ensures r == Front(Abs())
    {
      EmptyIffIndicesMeet(buffer[..], outPos, inPos);
      if inPos != outPos {
        AdvanceRemoves(buffer[..], outPos, inPos);
        return buffer[outPos] as int;
      }
      return -1;
    }

    method Any() returns (n: int)
      requires Valid()
      ensures n == |Abs().items|
    {
      AnyIsLength(buffer[..], outPos, inPos);
      var avail := I32(U32(inPos - outPos));
      return if avail < 0 then I32(U32(U32(avail) + buffSize)) else avail;
    }

    method Flush()
      requires Valid()
      modifies this`inPos, this`outPos, this`overflow
      ensures Valid()
      ensures Abs() == Clear(old(Abs()))
    {
      inPos, outPos := 0, 0;
      overflow := false;
    }

    method Overflow() returns (r: bool)
      requires Valid()
      ensures r == Abs().overflow
    {
      return overflow;
    }

    /** Sending one byte: the pin writes made are those of one frame carrying the
        byte, complemented when `invert`, in cells a little longer than `bitTime`.
        The call returns at `end`. */
    method Write(byte: bv8, gap: nat -> nat, g: nat, now: nat) returns (wave: seq<Edge>, f: Frame, end: nat)
      requires Steady(gap, g) && bitTime + g < TWO32
      ensures f.byte == Flip(invert, byte)
      ensures Cells(f.edges, Least(bitTime), Slack(g))
      ensures now < f.pre <= now + g && f.pre < f.edges[0] <= f.pre + g
      ensures wave == FrameLog(f)
      ensures end + 1 == f.edges[10]
    {
      var out := if invert then !byte else byte;
      var pre := now + gap(now);
      var edges, at;
      wave, edges, at := SendBits(out, gap, g, pre, pre + gap(pre), bitTime);
      var start;
      start, end := WaitBitTime(gap, g, at, bitTime);
      SpacedExtend(edges, Least(bitTime), Slack(g), at);
      SpacedExtend(edges + [at], Least(bitTime), Slack(g), end + 1);
      SentAll(wave, pre, edges, out, at, end + 1);
      wave := wave + [Edge(at, true)];
      assert edges + [at] + [end + 1] == edges + [at, end + 1];
      f := Frame(pre, edges + [at, end + 1], out);
    }

    /** `sw_enableRx`: the edge that starts the handler, if it is being enabled, and
        the status reported by the interrupt service. */
    method EnableRx(state: bool, status: int) returns (trigger: Option<Trigger>, error: int)
      ensures trigger == if !state then None else if invert then Some(PosEdge) else Some(NegEdge)
      ensures error == status
    {
      trigger := None;
      if state {
        trigger := Some(if invert then PosEdge else NegEdge);
      }
      error := status;
    }

    method Open(clockHz: Word, baud: Word, gap: nat -> nat, g: nat, now: nat, status: int)
      returns (wave: seq<Edge>, f: Frame, end: nat, trigger: Option<Trigger>, error: int)
      requires baud != 0 && Steady(gap, g) && BitTime(clockHz, baud) + g < TWO32
      modifies this`bitTime, this`rxStartTime, this`rxEndTime
      ensures BitTiming(bitTime, rxStartTime, rxEndTime) == TimingFor(clockHz, baud)
      ensures f.byte == Flip(invert, 0x00) && Cells(f.edges, Least(bitTime), Slack(g)) && wave == FrameLog(f)
      ensures now < f.pre <= now + g && f.pre < f.edges[0] <= f.pre + g && end + 1 == f.edges[10]
      ensures trigger == Some(if invert then PosEdge else NegEdge) && error == status
    {
      QuotientAtMost(clockHz, baud);
      bitTime := clockHz / baud;
      match baud {
        case 115200 =>
          rxStartTime := bitTime / 256;
          rxEndTime := U32(bitTime * 127) / 256;
        case 9600 =>
          rxStartTime := bitTime / 9;
          rxEndTime := U32(bitTime * 8) / 9;
        case _ =>
          rxStartTime := bitTime / 9;
          rxEndTime := U32(bitTime * 8) / 9;
      }
      wave, f, end := Write(0x00, gap, g, now);
      trigger, error := EnableRx(true, status);
    }
  }
}
