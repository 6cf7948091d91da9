/** What the constants of `sw_open` mean for the timing windows. */
module BaudRate {
  import opened CInt
  import opened CycleClock
  import opened SwSerialDriver
  import opened Timing
  import opened Exact

  lemma Divide(x: nat, y: nat)
    requires y != 0
    ensures x == y * (x / y) + x % y && x % y < y
  {
  }

  /** At every clock and every rate the bit time is the exact one, rounded down. */
  lemma BitTimeIsFloor(clockHz: Word, baud: Word)
    requires baud != 0
    ensures var b := TimingFor(clockHz, baud).bitTime; b * baud <= clockHz < (b + 1) * baud
  {
    var b := TimingFor(clockHz, baud).bitTime;
    Divide(clockHz, baud);
    assert (b + 1) * baud == b * baud + baud;
  }

  /** The constants as real divisions would round them, without 32-bit wrap. */
  function Unwrapped(clockHz: Word, baud: Word): (Word, nat)
    requires baud != 0
  {
    var bitTime := BitTime(clockHz, baud);
    if baud == 115200 then (bitTime / 256, bitTime * 127 / 256) else (bitTime / 9, bitTime * 8 / 9)
  }

  /** The 32-bit arithmetic of `sw_open` is exact at 115200 baud, and at any other
      rate if and only if the bit time is below 2^29 cycles. */
  lemma OpenOverflow(clockHz: Word, baud: Word)
    requires baud != 0
    ensures var t := TimingFor(clockHz, baud);
      (t.startTime, t.endTime) == Unwrapped(clockHz, baud) <==> baud == 115200 || t.bitTime < 0x2000_0000
  {
    var bitTime := BitTime(clockHz, baud);
    if baud == 115200 {
      SmallWord(bitTime * 127);
    } else if bitTime < 0x2000_0000 {
      SmallWord(bitTime * 8);
    } else {
      var q := bitTime * 8 / TWO32;
      assert bitTime * 8 == q * TWO32 + U32(bitTime * 8);
      assert q >= 1;
      assert U32(bitTime * 8) / 9 < bitTime * 8 / 9;
    }
  }

  /** No clock below 2^29 Hz overflows at any baud rate. */
  lemma SlowClockNeverOverflows(clockHz: Word, baud: Word)
    requires baud != 0 && clockHz < 0x2000_0000
    ensures var t := TimingFor(clockHz, baud); (t.startTime, t.endTime) == Unwrapped(clockHz, baud)
  {
    QuotientAtMost(clockHz, baud);
    OpenOverflow(clockHz, baud);
  }

  lemma Ninths(b: nat)
    ensures b / 9 + b * 8 / 9 == if b % 9 == 0 then b else b - 1
  {
    var q, r := b / 9, b % 9;
    assert b * 8 == 9 * (8 * q) + 8 * r;
    assert b * 8 / 9 == 8 * q + 8 * r / 9;
  }

  /** Sender and receiver at the same bit time, ideal waits, latency d. */
  function IdealLink(t: BitTiming, d: nat): Link {
    Link(t.bitTime, 0, t.bitTime, 0, d, d, t.startTime, t.endTime, 0)
  }

  /** At every rate but 115200 any latency from one cycle (from zero when 9 divides
      the bit time) up to about 8/9 of a bit works, and no other. */
  lemma NinthsLatency(clockHz: Word, baud: Word, d: nat, idle: bool, invert: bool)
    requires baud != 0 && baud != 115200 && BitTime(clockHz, baud) < 0x2000_0000
    ensures var t := TimingFor(clockHz, baud); var b := t.bitTime;
      AlwaysDecodes(IdealLink(t, d), idle, invert) <==> (if b % 9 == 0 then 0 else 1) <= d < b - b / 9
  {
    var t := TimingFor(clockHz, baud);
    OpenOverflow(clockHz, baud);
    Ninths(t.bitTime);
    IdealWindow(t.bitTime, d, t.startTime, t.endTime, idle, invert);
  }

  /** At 115200 the handler must be entered in the second half of the start bit:
      with a faster entry some byte is lost. */
  lemma FastLatency(clockHz: Word, d: nat, idle: bool, invert: bool)
    ensures var t := TimingFor(clockHz, 115200); var b := t.bitTime;
      && (AlwaysDecodes(IdealLink(t, d), idle, invert) <==> b - b / 256 - b * 127 / 256 <= d < b - b / 256)
      && (AlwaysDecodes(IdealLink(t, d), idle, invert) ==> b <= 2 * d)
  {
    var t := TimingFor(clockHz, 115200);
    OpenOverflow(clockHz, 115200);
    IdealWindow(t.bitTime, d, t.startTime, t.endTime, idle, invert);
  }

  /** Transmitter and receiver with the same bit time: the stream window in terms of
      the latency range, the overshoots and the exit time. */
  lemma SameRateWindow(
    b: nat, ht: nat, hr: nat, d0: nat, d1: nat, s: nat, e: nat, x: nat, idle: bool)
    requires d0 <= d1
    ensures AlwaysDelivers(Link(b, ht, b, hr, d0, d1, s, e, x), idle) <==>
      && 8 * ht <= d0 + s
      && b + 9 * ht <= d0 + s + e
      && d1 + s + 9 * hr < b
      && d1 + s + e + 10 * hr + x < 2 * b
  {
    StreamWindowIsExact(Link(b, ht, b, hr, d0, d1, s, e, x), idle);
  }

  /** Two drivers at the same setting, with pin and counter accesses of 1 to g cycles:
      the bounds `SwSerial.Write` and `SwSerial.RxHandler` promise. */
  function DriverLink(t: BitTiming, g: nat, d0: nat, d1: nat, x: nat): Link {
    Link(Least(t.bitTime), Slack(g), Least(t.bitTime), Slack(g), d0, d1, Least(t.startTime), Least(t.endTime), x)
  }

  /** At every rate but 115200, from 9 cycles per bit: the latencies, access times and
      exit times with which no stream loses anything. The earliest latency is set by
      the stop check, the latest by the last data sample and by the next frame. */
  lemma NinthsDriver(clockHz: Word, baud: Word, g: nat, d0: nat, d1: nat, x: nat, idle: bool)
    requires baud != 0 && baud != 115200 && 9 <= BitTime(clockHz, baud) < 0x2000_0000
    requires g >= 1 && d0 <= d1
    ensures var t := TimingFor(clockHz, baud); var b, odd := t.bitTime, if t.bitTime % 9 == 0 then 0 else 1;
      AlwaysDelivers(DriverLink(t, g, d0, d1, x), idle) <==>
      && 27 * (g - 1) + odd <= d0 + 2
      && d1 + b / 9 + 27 * (g - 1) < b
      && d1 + 30 * (g - 1) + x < b + odd
  {
    var t := TimingFor(clockHz, baud);
    OpenOverflow(clockHz, baud);
    Ninths(t.bitTime);
    SameRateWindow(Least(t.bitTime), Slack(g), Slack(g), d0, d1, Least(t.startTime), Least(t.endTime), x, idle);
  }

  /** The same at 115200, from 256 cycles per bit. */
  lemma FastDriver(clockHz: Word, g: nat, d0: nat, d1: nat, x: nat, idle: bool)
    requires 256 <= BitTime(clockHz, 115200) && g >= 1 && d0 <= d1
    ensures var t := TimingFor(clockHz, 115200); var b := t.bitTime;
      AlwaysDelivers(DriverLink(t, g, d0, d1, x), idle) <==>
      && b + 27 * (g - 1) <= d0 + b / 256 + b * 127 / 256 + 2
      && d1 + b / 256 + 27 * (g - 1) < b
      && d1 + b / 256 + b * 127 / 256 + 30 * (g - 1) + x < 2 * b
  {
    var t := TimingFor(clockHz, 115200);
    OpenOverflow(clockHz, 115200);
    SameRateWindow(Least(t.bitTime), Slack(g), Slack(g), d0, d1, Least(t.startTime), Least(t.endTime), x, idle);
  }

  /** The ESP32 at 160 MHz and 115200 baud, with accesses of at most 8 cycles and an
      exit of at most 600: latencies from 882 to 1193 cycles (5.5 to 7.5
      microseconds) lose nothing, and no wider range does. */
  lemma Esp32At115200(d0: nat, d1: nat, x: nat, idle: bool)
    requires d0 <= d1 && x <= 600
    ensures TimingFor(160_000_000, 115200) == BitTiming(1388, 5, 688)
    ensures AlwaysDelivers(DriverLink(TimingFor(160_000_000, 115200), 8, d0, d1, x), idle)
      <==> 882 <= d0 && d1 <= 1193
  {
    OpenOverflow(160_000_000, 115200);
    FastDriver(160_000_000, 8, d0, d1, x, idle);
  }

  /** A receiver counting whole cycles against a peer sending at exactly
      clockHz / baud cycles per bit. The unit of time is 1 / baud of a cycle, so
      that the peer's bit time is the integer clockHz. The receiver's steps take
      s, `step` and e cycles and up to h more. */
  function PeerLink(
    clockHz: nat, baud: nat, s: nat, step: nat, e: nat, h: nat, d0: nat, d1: nat, x: nat): Link
  {
    Link(clockHz, 0, baud * step, baud * h, baud * d0, baud * d1, baud * s, baud * e, baud * x)
  }

  lemma Spread(c: nat, x: nat, y: nat, z: nat)
    ensures c * (x + y + z) == c * x + c * y + c * z
  {
  }

  lemma Scaled(c: nat, x: nat, y: nat)
    requires x <= y
    ensures c * x <= c * y
  {
  }

  /** The window of a peer link whose bit time p + r the receiver rounds to p. */
  lemma RoundedWindow(p: nat, r: nat, c: nat, l: Link)
    requires r < c && l.bt == p + r && l.ht == 0 && l.br == p
    requires 8 * c <= l.d0 + l.s
    requires l.d1 + l.s + 9 * l.hr + c <= p
    requires p + 9 * c <= l.d0 + l.s + l.e
    requires l.d1 + l.s + l.e + 10 * l.hr + l.x + c <= 2 * p
    ensures StreamWindow(l)
  {
  }

  lemma Early(c: nat, b: nat, d: nat, s: nat, e: nat)
    requires 8 <= d + s && b + 9 <= d + s + e
    ensures 8 * c <= c * d + c * s
    ensures c * b + 9 * c <= c * d + c * s + c * e
  {
    Scaled(c, 8, d + s);
    Scaled(c, b + 9, d + s + e);
    Spread(c, d, s, e);
    Spread(c, d, s, 0);
    Spread(c, b, 9, 0);
  }

  lemma Late(c: nat, b: nat, d: nat, s: nat, e: nat, h: nat, x: nat)
    requires d + s + 9 * h < b && d + s + e + 10 * h + x < 2 * b
    ensures c * d + c * s + 9 * (c * h) + c <= c * b
    ensures c * d + c * s + c * e + 10 * (c * h) + c * x + c <= 2 * (c * b)
  {
    Scaled(c, d + s + (9 * h + 1), b);
    Scaled(c, d + s + (e + 10 * h + (x + 1)), 2 * b);
    Spread(c, d, s, 9 * h + 1);
    Spread(c, d, s, e + 10 * h + (x + 1));
    Spread(c, e, 10 * h, x + 1);
    Spread(c, x, 1, 0);
    Spread(c, 9 * h, 1, 0);
    assert c * (9 * h) == 9 * (c * h) && c * (10 * h) == 10 * (c * h) && c * (2 * b) == 2 * (c * b);
  }

  /** Against an exact peer the rounding of the driver's bit time costs at most 8
      cycles at the early and 9 at the late end of the frame, for every clock and
      every baud rate; here the waits take no less and up to h more than asked. */
  lemma RoundedBitTime(clockHz: Word, baud: Word, h: nat, d0: nat, d1: nat, x: nat, idle: bool)
    requires baud != 0 && d0 <= d1
    requires var BitTiming(b, s, e) := TimingFor(clockHz, baud);
      8 <= d0 + s && d1 + s + 9 * h < b && b + 9 <= d0 + s + e && d1 + s + e + 10 * h + x < 2 * b
    ensures var BitTiming(b, s, e) := TimingFor(clockHz, baud);
      AlwaysDelivers(PeerLink(clockHz, baud, s, b, e, h, d0, d1, x), idle)
  {
    var BitTiming(b, s, e) := TimingFor(clockHz, baud);
    var l := PeerLink(clockHz, baud, s, b, e, h, d0, d1, x);
    assert StreamWindow(l) by {
      BitTimeIsFloor(clockHz, baud);
      Early(baud, b, d0, s, e);
      Late(baud, b, d1, s, e, h, x);
      Remainder(baud, b, clockHz);
      RoundedWindow(baud * b, clockHz - baud * b, baud, l);
    }
    assert l.d0 <= l.d1 by {
      Scaled(baud, d0, d1);
    }
    StreamWindowIsExact(l, idle);
  }

  lemma Remainder(c: nat, b: nat, f: nat)
    requires b * c <= f < (b + 1) * c
    ensures c * b <= f < c * b + c
  {
    assert (b + 1) * c == b * c + c && b * c == c * b;
  }

  /** The window of a peer link whose receiver, two cycles late at every bit, takes
      p + 2c for a bit time of p + r. */
  lemma SlowedWindow(p: nat, r: nat, c: nat, l: Link)
    requires r < c && l.bt == p + r && l.ht == 0 && l.br == p + 2 * c
    requires l.d1 + l.s + 16 * c + 9 * l.hr + c <= p
    requires p <= l.d0 + l.s + l.e + 7 * c
    requires l.d1 + l.s + 16 * c + l.e + 10 * l.hr + l.x + c <= 2 * p
    ensures StreamWindow(l)
  {
  }

  /** The driver as it is, whose steps take the least time `CycleClock` allows and up
      to the slack of its accesses more, against an exact peer: at every clock and
      every baud rate these three conditions suffice. */
  lemma DriverMeetsPeer(clockHz: Word, baud: Word, g: nat, d0: nat, d1: nat, x: nat, idle: bool)
    requires baud != 0 && d0 <= d1
    requires var BitTiming(b, start, end) := TimingFor(clockHz, baud);
      var s, e, h := Least(start), Least(end), Slack(g);
      d1 + s + 16 + 9 * h < b <= d0 + s + e + 7 && d1 + s + 16 + e + 10 * h + x < 2 * b
    ensures var BitTiming(b, start, end) := TimingFor(clockHz, baud);
      AlwaysDelivers(
        PeerLink(clockHz, baud, Least(start), Least(b), Least(end), Slack(g), d0, d1, x), idle)
  {
    var BitTiming(b, start, end) := TimingFor(clockHz, baud);
    var s, e, h := Least(start), Least(end), Slack(g);
    var l := PeerLink(clockHz, baud, s, Least(b), e, h, d0, d1, x);
    assert StreamWindow(l) by {
      BitTimeIsFloor(clockHz, baud);
      Remainder(baud, b, clockHz);
      Late(baud, b, d1, s + 16, e, h, x);
      Scaled(baud, b, d0 + s + (e + 7));
      Spread(baud, d0, s, e + 7);
      Spread(baud, e, 7, 0);
      Spread(baud, s, 16, 0);
      Spread(baud, b, 2, 0);
      SlowedWindow(baud * b, clockHz - baud * b, baud, l);
    }
    assert l.d0 <= l.d1 by {
      Scaled(baud, d0, d1);
    }
    StreamWindowIsExact(l, idle);
  }
}
