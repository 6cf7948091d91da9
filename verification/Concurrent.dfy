/** The receive buffer shared by the interrupt handler and the reading task, at the
    grain of single accesses to what the other side may change or see: between any
    two steps of one side the other may take any number of its own. There is one
    handler and one reader; only the handler stores `inPos`, the slots and, but for
    `sw_flush`, `overflow`, and only the reader stores `outPos`, so a side's loads of
    its own variables are part of the step that uses them. */
module Concurrent {
  import opened CInt
  import opened Ring
  import opened ByteQueue
  import opened Option
  import Stream
  import Timing
  import Wire

  /** Where the handler is between uart/sw_serial.h:114 and 123. */
  datatype Handler =
    | Away
    | Fetched(b: bv8, next: Word)   // has computed `next`
    | Room(b: bv8, next: Word)      // has seen next != outPos
    | Stored(b: bv8, next: Word)    // has written the slot
    | Full                          // has seen next == outPos

  /** Where the reader is in `sw_read`, `sw_peek` or `sw_any`. */
  datatype Reader =
    | Idle
    | ReadData                      // sw_read has seen inPos != outPos
    | ReadByte(ch: bv8)             // ... and loaded the byte
    | PeekData                      // sw_peek has seen inPos != outPos
    | AnySeen(seen: Word)           // sw_any has loaded inPos

  /** `promise` is a history variable: the bytes counted by the last `sw_any` that
      have not been read since. */
  datatype State = State(size: Word, buffer: seq<bv8>, inPos: Word, outPos: Word, overflow: bool,
                         handler: Handler, reader: Reader, promise: seq<bv8>)

  datatype Step =
    | Enter(b: bv8) | TestRoom | StoreSlot | Publish | RaiseFlag
    | ReadTest | ReadSlot | ReadAdvance
    | PeekTest | PeekSlot
    | AnyFetch | AnyReturn
    | ReadFlag

  predicate Sane(s: State) {
    |s.buffer| == s.size && Indices(s.size, s.outPos, s.inPos)
  }

  predicate Enabled(s: State, step: Step) {
    match step
    case Enter(_) => s.handler == Away
    case TestRoom => s.handler.Fetched?
    case StoreSlot => s.handler.Room?
    case Publish => s.handler.Stored?
    case RaiseFlag => s.handler.Full?
    case ReadTest | PeekTest | AnyFetch | ReadFlag => s.reader == Idle
    case ReadSlot => s.reader == ReadData
    case ReadAdvance => s.reader.ReadByte?
    case PeekSlot => s.reader == PeekData
    case AnyReturn => s.reader.AnySeen?
  }

  function Items(s: State): seq<bv8>
    requires Sane(s)
  {
    Slice(s.buffer, s.outPos, s.inPos)
  }

  function Do(s: State, step: Step): State
    requires Sane(s) && Enabled(s, step)
  {
    match step
    case Enter(b) => s.(handler := Fetched(b, Next(s.size, s.inPos)))
    case TestRoom =>
      if s.handler.next != s.outPos then s.(handler := Room(s.handler.b, s.handler.next))
      else s.(handler := Full)
    case StoreSlot => s.(handler := Stored(s.handler.b, s.handler.next), buffer := s.buffer[s.inPos := s.handler.b])
    case Publish => s.(handler := Away, inPos := s.handler.next)
    case RaiseFlag => s.(handler := Away, overflow := true)
    case ReadTest => if s.inPos != s.outPos then s.(reader := ReadData) else s
    case ReadSlot => s.(reader := ReadByte(s.buffer[s.outPos]))
    case ReadAdvance =>
      s.(reader := Idle, outPos := Next(s.size, s.outPos), promise := if s.promise == [] then [] else s.promise[1..])
    case PeekTest => if s.inPos != s.outPos then s.(reader := PeekData) else s
    case PeekSlot => s.(reader := Idle)
    case AnyFetch => s.(reader := AnySeen(s.inPos), promise := Items(s))
    case AnyReturn => s.(reader := Idle)
    case ReadFlag => s
  }

  /** What a step means for the atomic queue. An arriving byte takes effect when it
      is published or found to have no room, a read when it advances or finds
      nothing, `sw_any` when it loads `inPos`; what it returns follows later. */
  datatype Event =
    | Internal
    | Enqueued(b: bv8) | Refused(b: bv8) | FlagRaised
    | ReadReturned(r: int) | PeekReturned(r: int)
    | AnySaw(n: int) | AnyReturned(n: int)
    | FlagReturned(flag: bool)

  function EventOf(s: State, step: Step): Event
    requires Sane(s) && Enabled(s, step)
  {
    match step
    case TestRoom => if s.handler.next != s.outPos then Internal else Refused(s.handler.b)
    case Publish => Enqueued(s.handler.b)
    case RaiseFlag => FlagRaised
    case ReadTest => if s.inPos != s.outPos then Internal else ReadReturned(-1)
    case ReadAdvance => ReadReturned(s.reader.ch as int)
    case PeekTest => if s.inPos != s.outPos then Internal else PeekReturned(-1)
    case PeekSlot => PeekReturned(s.buffer[s.outPos] as int)
    case AnyFetch => AnySaw(AnyC(s.size, s.outPos, s.inPos))
    case AnyReturn => AnyReturned(AnyC(s.size, s.outPos, s.reader.seen))
    case ReadFlag => FlagReturned(s.overflow)
    case _ => Internal
  }

  /** The atomic bounded FIFO: `None` when it does not allow the event. */
  function Apply(q: Queue, e: Event): Option<Queue> {
    match e
    case Internal => Some(q)
    case Enqueued(b) => if |q.items| < q.cap then Some(Offer(q, b)) else None
    case Refused(b) => if |q.items| == q.cap then Some(q) else None
    case FlagRaised => Some(q.(overflow := true))
    case ReadReturned(r) => if r == Front(q) then Some(Take(q)) else None
    case PeekReturned(r) => if r == Front(q) then Some(q) else None
    case AnySaw(n) => if n == |q.items| then Some(q) else None
    case AnyReturned(_) => Some(q)
    case FlagReturned(flag) => if flag == q.overflow then Some(q) else None
  }

  ghost function Abs(s: State): Queue
    requires Sane(s)
  {
    Queue(s.size - 1, Items(s), s.overflow)
  }

  /** What each side may rely on at each point, whatever the other does. */
  ghost predicate HandlerInv(s: State)
    requires Sane(s)
  {
    match s.handler
    case Away | Full => true
    case Fetched(b, next) => next == Next(s.size, s.inPos)
    case Room(b, next) => next == Next(s.size, s.inPos) && next != s.outPos
    case Stored(b, next) => next == Next(s.size, s.inPos) && next != s.outPos && s.buffer[s.inPos] == b
  }

  ghost predicate ReaderInv(s: State)
    requires Sane(s)
  {
    match s.reader
    case Idle => true
    case ReadData | PeekData => s.inPos != s.outPos
    case ReadByte(ch) => s.inPos != s.outPos && s.buffer[s.outPos] == ch
    case AnySeen(seen) => AnyC(s.size, s.outPos, seen) == |s.promise|
  }

  ghost predicate Inv(s: State) {
    Sane(s) && HandlerInv(s) && ReaderInv(s) && s.promise <= Items(s)
  }

  /** A step keeps the invariant, and the atomic queue allows its event with the
      same effect. */
  ghost predicate Simulated(s: State, step: Step)
    requires Sane(s) && Enabled(s, step)
  {
    var u := Do(s, step);
    Inv(u) && Apply(Abs(s), EventOf(s, step)) == Some(Abs(u))
  }

  lemma HandlerEnter(s: State, b: bv8)
    requires Inv(s) && s.handler == Away
    ensures Simulated(s, Enter(b))
  {
  }

  lemma HandlerTest(s: State)
    requires Inv(s) && s.handler.Fetched?
    ensures Simulated(s, TestRoom)
  {
    assert s.handler.next == s.outPos <==> |Items(s)| == s.size - 1 by {
      FullIffNextMeetsOut(s.buffer, s.outPos, s.inPos);
    }
    assert Items(Do(s, TestRoom)) == Items(s);
  }

  lemma HandlerFlag(s: State)
    requires Inv(s) && s.handler.Full?
    ensures Simulated(s, RaiseFlag)
  {
  }

  lemma HandlerStore(s: State)
    requires Inv(s) && s.handler.Room?
    ensures Simulated(s, StoreSlot)
  {
    StoreIsInvisible(s.buffer, s.outPos, s.inPos, s.handler.b);
    assert Items(Do(s, StoreSlot)) == Items(s);
  }

  lemma HandlerPublish(s: State)
    requires Inv(s) && s.handler.Stored?
    ensures Simulated(s, Publish)
  {
    FullIffNextMeetsOut(s.buffer, s.outPos, s.inPos);
    NextIsSuccessor(s.size, s.inPos);
    PublishAppends(s.buffer, s.outPos, s.inPos);
    assert Items(Do(s, Publish)) == Items(s) + [s.handler.b];
  }

  /** The oldest queued byte is the one at `outPos`. */
  lemma FrontAtOut(s: State)
    requires Sane(s)
    ensures Front(Abs(s)) == if s.inPos == s.outPos then -1 else s.buffer[s.outPos] as int
    ensures s.inPos == s.outPos ==> Take(Abs(s)) == Abs(s)
  {
    EmptyIffIndicesMeet(s.buffer, s.outPos, s.inPos);
    if s.inPos != s.outPos {
      AdvanceRemoves(s.buffer, s.outPos, s.inPos);
    }
  }

  lemma ReaderTest(s: State, step: Step)
    requires Inv(s) && Enabled(s, step) && (step.ReadTest? || step.PeekTest?)
    ensures Simulated(s, step)
  {
    FrontAtOut(s);
  }

  lemma ReaderLoad(s: State, step: Step)
    requires Inv(s) && Enabled(s, step) && (step.ReadSlot? || step.PeekSlot?)
    ensures Simulated(s, step)
  {
    FrontAtOut(s);
  }

  lemma ReaderAdvance(s: State)
    requires Inv(s) && s.reader.ReadByte?
    ensures Simulated(s, ReadAdvance)
    ensures s.promise != [] ==> s.promise[0] == s.reader.ch
  {
    AdvanceRemoves(s.buffer, s.outPos, s.inPos);
    NextIsSuccessor(s.size, s.outPos);
    NextIsSuccessor(s.size, s.inPos);
    var u := Do(s, ReadAdvance);
    assert Items(s) == [s.reader.ch] + Items(u);
    if s.promise != [] {
      assert s.promise[1..] <= Items(s)[1..];
    }
  }

  lemma ReaderAny(s: State, step: Step)
    requires Inv(s) && Enabled(s, step) && (step.AnyFetch? || step.AnyReturn? || step.ReadFlag?)
    ensures Simulated(s, step)
  {
    AnyIsLength(s.buffer, s.outPos, s.inPos);
  }

  lemma StepSimulated(s: State, step: Step)
    requires Inv(s) && Enabled(s, step)
    ensures Simulated(s, step)
  {
    match step
    case Enter(b) => HandlerEnter(s, b);
    case TestRoom => HandlerTest(s);
    case StoreSlot => HandlerStore(s);
    case Publish => HandlerPublish(s);
    case RaiseFlag => HandlerFlag(s);
    case ReadTest => ReaderTest(s, step);
    case ReadSlot => ReaderLoad(s, step);
    case ReadAdvance => ReaderAdvance(s);
    case PeekTest => ReaderTest(s, step);
    case PeekSlot => ReaderLoad(s, step);
    case AnyFetch => ReaderAny(s, step);
    case AnyReturn => ReaderAny(s, step);
    case ReadFlag => ReaderAny(s, step);
  }

  /** The steps can be taken one after the other from `s`. */
  predicate Runs(s: State, steps: seq<Step>)
    decreases |steps|
  {
    steps == [] || (Sane(s) && Enabled(s, steps[0]) && Runs(Do(s, steps[0]), steps[1..]))
  }

  function After(s: State, steps: seq<Step>): State
    requires Runs(s, steps)
    decreases |steps|
  {
    if steps == [] then s else After(Do(s, steps[0]), steps[1..])
  }

  function Events(s: State, steps: seq<Step>): seq<Event>
    requires Runs(s, steps)
    decreases |steps|
  {
    if steps == [] then [] else [EventOf(s, steps[0])] + Events(Do(s, steps[0]), steps[1..])
  }

  function Replay(q: Queue, events: seq<Event>): Option<Queue>
    decreases |events|
  {
    if events == [] then Some(q)
    else
      match Apply(q, events[0])
      case None => None
      case Some(r) => Replay(r, events[1..])
  }

  /** Refinement: the events of any interleaving are a history of the atomic
      bounded FIFO, which ends in the queue the final state stands for. */
  lemma {:induction false} Refinement(s: State, steps: seq<Step>)
    requires Inv(s) && Runs(s, steps)
    ensures Inv(After(s, steps))
    ensures Replay(Abs(s), Events(s, steps)) == Some(Abs(After(s, steps)))
    decreases |steps|
  {
    if steps != [] {
      StepSimulated(s, steps[0]);
      var u, events := Do(s, steps[0]), Events(s, steps);
      Refinement(u, steps[1..]);
      assert events[0] == EventOf(s, steps[0]) && events[1..] == Events(u, steps[1..]);
    }
  }

  /** The bytes put into the queue by a history. */
  function Accepted(events: seq<Event>): seq<bv8> {
    if events == [] then []
    else if events[0].Enqueued? then [events[0].b] + Accepted(events[1..])
    else Accepted(events[1..])
  }

  /** What the calls of `sw_read` return in a history. */
  function Reads(events: seq<Event>): seq<int> {
    if events == [] then []
    else if events[0].ReadReturned? then [events[0].r] + Reads(events[1..])
    else Reads(events[1..])
  }

  function Bytes(results: seq<int>): seq<int> {
    if results == [] then []
    else if results[0] == -1 then Bytes(results[1..])
    else [results[0]] + Bytes(results[1..])
  }

  /** In the atomic FIFO every accepted byte is read once, in order, or still
      queued. */
  lemma {:induction false} FifoOrder(q: Queue, events: seq<Event>)
    requires Replay(q, events).Some?
    ensures Ints(q.items + Accepted(events)) == Bytes(Reads(events)) + Ints(Replay(q, events).value.items)
    decreases |events|
  {
    if events != [] {
      var r := Apply(q, events[0]).value;
      FifoOrder(r, events[1..]);
      match events[0]
      case Enqueued(b) =>
        assert q.items + Accepted(events) == r.items + Accepted(events[1..]);
      case ReadReturned(_) =>
        ReadReturnsFront(q, events[0], Accepted(events), Reads(events[1..]));
      case _ =>
    }
  }

  lemma ReadReturnsFront(q: Queue, e: Event, accepted: seq<bv8>, later: seq<int>)
    requires e.ReadReturned? && Apply(q, e).Some?
    ensures var front := if q.items == [] then [] else [Front(q)];
      && Bytes([e.r] + later) == front + Bytes(later)
      && Ints(q.items + accepted) == front + Ints(Apply(q, e).value.items + accepted)
  {
    FrontIsNoData(q);
    assert ([e.r] + later)[1..] == later;
  }

  /** The bytes refused for lack of room. */
  function Refusals(events: seq<Event>): seq<bv8> {
    if events == [] then []
    else if events[0].Refused? then [events[0].b] + Refusals(events[1..])
    else Refusals(events[1..])
  }

  function Answer(e: Event): seq<bv8> {
    if e.Enqueued? || e.Refused? then [e.b] else []
  }

  /** The bytes of either kind, in order. */
  function Answered(events: seq<Event>): seq<bv8> {
    if events == [] then [] else Answer(events[0]) + Answered(events[1..])
  }

  lemma {:induction false} AnsweredSplits(events: seq<Event>)
    ensures multiset(Answered(events)) == multiset(Accepted(events)) + multiset(Refusals(events))
    ensures Refusals(events) == [] ==> Answered(events) == Accepted(events)
  {
    if events != [] {
      AnsweredSplits(events[1..]);
    }
  }

  function Arrival(step: Step): seq<bv8> {
    if step.Enter? then [step.b] else []
  }

  /** The bytes the handler runs of a schedule bring. */
  function Entered(steps: seq<Step>): seq<bv8> {
    if steps == [] then [] else Arrival(steps[0]) + Entered(steps[1..])
  }

  /** The byte of a handler run that has not yet been published or refused. */
  function InFlight(s: State): seq<bv8> {
    match s.handler
    case Away | Full => []
    case Fetched(b, _) => [b]
    case Room(b, _) => [b]
    case Stored(b, _) => [b]
  }

  /** Moving one step along two lists that agree up to what is pending. */
  lemma Splice<T>(
    before: seq<T>, first: seq<T>, rest: seq<T>, out: seq<T>, after: seq<T>, later: seq<T>, last: seq<T>)
    requires before + first == out + after && after + rest == later + last
    ensures before + (first + rest) == (out + later) + last
  {
    calc {
      before + (first + rest);
      (before + first) + rest;
      (out + after) + rest;
      out + (after + rest);
      out + (later + last);
      (out + later) + last;
    }
  }

  lemma StepAnswers(s: State, step: Step)
    requires Sane(s) && Enabled(s, step)
    ensures InFlight(s) + Arrival(step) == Answer(EventOf(s, step)) + InFlight(Do(s, step))
  {
  }

  /** The handler answers for exactly the bytes it is entered with, in order. */
  lemma {:induction false} EnteredIsAnswered(s: State, steps: seq<Step>)
    requires Runs(s, steps)
    ensures InFlight(s) + Entered(steps) == Answered(Events(s, steps)) + InFlight(After(s, steps))
    decreases |steps|
  {
    if steps != [] {
      var u, e, rest := Do(s, steps[0]), EventOf(s, steps[0]), steps[1..];
      EnteredIsAnswered(u, rest);
      StepAnswers(s, steps[0]);
      Splice(InFlight(s), Arrival(steps[0]), Entered(rest),
        Answer(e), InFlight(u), Answered(Events(u, rest)), InFlight(After(u, rest)));
      assert Events(s, steps)[1..] == Events(u, rest);
    }
  }

  /** The flag is up, or about to be, exactly when a byte has been refused. */
  lemma {:induction false} FlagTellsRefusals(s: State, steps: seq<Step>)
    requires Runs(s, steps)
    ensures var u := After(s, steps);
      u.overflow || u.handler.Full? <==> s.overflow || s.handler.Full? || Refusals(Events(s, steps)) != []
    decreases |steps|
  {
    if steps != [] {
      FlagTellsRefusals(Do(s, steps[0]), steps[1..]);
      var later := Events(Do(s, steps[0]), steps[1..]);
      assert Events(s, steps)[1..] == later;
    }
  }

  /** An empty buffer with both sides idle, as `sw_new` leaves it. */
  function Fresh(buffer: seq<bv8>): State
    requires 1 <= |buffer| < TWO31
  {
    State(|buffer|, buffer, 0, 0, false, Away, Idle, [])
  }

  /** No interleaving loses, duplicates, reorders or invents a byte. The bytes the
      handler was entered with are, in order, those it has answered for and the one
      in flight; each answer accepts or refuses; the bytes returned by the reads,
      then those still queued, are the accepted ones in order. So as long as none
      is refused, read, queued and in flight together are what was entered. The
      overflow flag is up, or about to be raised, exactly when one was refused. */
  lemma NoByteLost(buffer: seq<bv8>, steps: seq<Step>)
    requires 1 <= |buffer| < TWO31 && Runs(Fresh(buffer), steps)
    ensures Sane(After(Fresh(buffer), steps))
    ensures var s, events := After(Fresh(buffer), steps), Events(Fresh(buffer), steps);
      && Entered(steps) == Answered(events) + InFlight(s)
      && multiset(Answered(events)) == multiset(Accepted(events)) + multiset(Refusals(events))
      && Bytes(Reads(events)) + Ints(Items(s)) == Ints(Accepted(events))
      && (Refusals(events) == [] ==> Bytes(Reads(events)) + Ints(Items(s)) + Ints(InFlight(s)) == Ints(Entered(steps)))
      && (s.overflow || s.handler.Full? <==> Refusals(events) != [])
  {
    var s, events := Fresh(buffer), Events(Fresh(buffer), steps);
    Refinement(s, steps);
    FifoOrder(Abs(s), events);
    EnteredIsAnswered(s, steps);
    AnsweredSplits(events);
    FlagTellsRefusals(s, steps);
    assert Abs(s).items + Accepted(events) == Accepted(events);
    IntsConcat(Answered(events), InFlight(After(s, steps)));
  }

  /** What `sw_overflow` returns after any interleaving: true only if a byte has been
      refused, and true if one has been, unless the flag is just about to be raised. */
  lemma FlagAnswers(buffer: seq<bv8>, steps: seq<Step>)
    requires 1 <= |buffer| < TWO31 && Runs(Fresh(buffer), steps)
    requires Sane(After(Fresh(buffer), steps)) && After(Fresh(buffer), steps).reader == Idle
    ensures var s, refused := After(Fresh(buffer), steps), Refusals(Events(Fresh(buffer), steps)) != [];
      && EventOf(s, ReadFlag).FlagReturned?
      && var flag := EventOf(s, ReadFlag).flag;
      (flag ==> refused) && (refused && !s.handler.Full? ==> flag)
  {
    FlagTellsRefusals(Fresh(buffer), steps);
    Refinement(Fresh(buffer), steps);
  }

  lemma {:induction false} FirstReadIsFront(q: Queue, events: seq<Event>)
    requires Replay(q, events).Some? && q.items != [] && Reads(events) != []
    ensures Reads(events)[0] == Front(q)
    decreases |events|
  {
    if !events[0].ReadReturned? {
      FirstReadIsFront(Apply(q, events[0]).value, events[1..]);
    }
  }

  /** What `sw_peek` returns for a byte is what the next `sw_read` returns, whatever
      happens in between; it returns -1 exactly when the queue is empty. */
  lemma PeekTellsNextRead(s: State, steps: seq<Step>)
    requires Inv(s) && Runs(s, steps)
    ensures s.reader == PeekData && Reads(Events(s, steps)) != [] ==>
      EventOf(s, PeekSlot) == PeekReturned(Reads(Events(s, steps))[0])
    ensures s.reader == Idle ==> (EventOf(s, PeekTest) == PeekReturned(-1) <==> Items(s) == [])
  {
    FrontAtOut(s);
    FrontIsNoData(Abs(s));
    Refinement(s, steps);
    if s.reader == PeekData && Reads(Events(s, steps)) != [] {
      FirstReadIsFront(Abs(s), Events(s, steps));
    }
  }

  /** The bytes a stream of frames delivers, taken into the buffer by a handler that
      is interleaved with the reader in any way: unless one is refused, what the
      reads have returned, then what is queued or in flight, is what was sent. */
  lemma {:induction false} StreamThroughBuffer(
    l: Timing.Link, idle: bool, frames: seq<Wire.Frame>, acts: seq<Stream.Activation>,
    buffer: seq<bv8>, steps: seq<Step>)
    requires Timing.StreamWindow(l) && Wire.InOrder(frames, l.bt, l.ht)
    requires Stream.Run(l, idle, Wire.StreamLog(frames), acts)
    requires Entered(steps) == Stream.Delivered(Wire.Signal(idle, Wire.StreamLog(frames)), acts)
    requires 1 <= |buffer| < TWO31 && Runs(Fresh(buffer), steps)
    ensures Sane(After(Fresh(buffer), steps))
    ensures var s, events := After(Fresh(buffer), steps), Events(Fresh(buffer), steps);
      && Answered(events) + InFlight(s) == Stream.Payload(frames)
      && (Refusals(events) == [] ==>
            Bytes(Reads(events)) + Ints(Items(s)) + Ints(InFlight(s)) == Ints(Stream.Payload(frames)))
  {
    Stream.RoundTrip(l, idle, frames, acts);
    NoByteLost(buffer, steps);
  }

  lemma RunFirst(s: State, step: Step, rest: seq<Step>)
    requires Sane(s) && Enabled(s, step) && Runs(Do(s, step), rest)
    ensures Runs(s, [step] + rest) && After(s, [step] + rest) == After(Do(s, step), rest)
    ensures Events(s, [step] + rest) == [EventOf(s, step)] + Events(Do(s, step), rest)
  {
    assert ([step] + rest)[1..] == rest;
  }

  /** A handler run that is not interrupted does to the queue what the handler's
      `Store` does. */
  lemma AloneIsStore(s: State, b: bv8) returns (steps: seq<Step>)
    requires Inv(s) && s.handler == Away
    ensures var room := Next(s.size, s.inPos) != s.outPos;
      steps == [Enter(b), TestRoom] + if room then [StoreSlot, Publish] else [RaiseFlag]
    ensures Runs(s, steps) && Sane(After(s, steps)) && After(s, steps).handler == Away
    ensures Abs(After(s, steps)) == Offer(Abs(s), b)
  {
    var s1 := Do(s, Enter(b));
    var s2 := Do(s1, TestRoom);
    StepSimulated(s, Enter(b));
    StepSimulated(s1, TestRoom);
    var rest := if s2.handler.Full? then [RaiseFlag] else [StoreSlot, Publish];
    TailOfStore(s2, rest, b);
    RunFirst(s1, TestRoom, rest);
    RunFirst(s, Enter(b), [TestRoom] + rest);
    steps := [Enter(b)] + ([TestRoom] + rest);
    FullIffNextMeetsOut(s.buffer, s.outPos, s.inPos);
  }

  lemma TailOfStore(s: State, rest: seq<Step>, b: bv8)
    requires Inv(s) && (s.handler.Full? || (s.handler.Room? && s.handler.b == b))
    requires rest == if s.handler.Full? then [RaiseFlag] else [StoreSlot, Publish]
    ensures Runs(s, rest) && Sane(After(s, rest)) && After(s, rest).handler == Away
    ensures var q := Abs(s);
      Abs(After(s, rest)) == if s.handler.Full? then q.(overflow := true) else q.(items := q.items + [b])
  {
    if s.handler.Full? {
      StepSimulated(s, RaiseFlag);
      RunFirst(s, RaiseFlag, []);
    } else {
      var u := Do(s, StoreSlot);
      StepSimulated(s, StoreSlot);
      StepSimulated(u, Publish);
      RunFirst(u, Publish, []);
      RunFirst(s, StoreSlot, [Publish]);
    }
  }

  /** A call of `sw_read` that is not interrupted does what `Read` does. */
  lemma AloneIsRead(s: State) returns (steps: seq<Step>)
    requires Inv(s) && s.reader == Idle
    ensures steps == [ReadTest] + if s.inPos != s.outPos then [ReadSlot, ReadAdvance] else []
    ensures Runs(s, steps) && Sane(After(s, steps)) && After(s, steps).reader == Idle
    ensures Abs(After(s, steps)) == Take(Abs(s)) && Reads(Events(s, steps)) == [Front(Abs(s))]
  {
    FrontAtOut(s);
    StepSimulated(s, ReadTest);
    var rest := if s.inPos != s.outPos then [ReadSlot, ReadAdvance] else [];
    if s.inPos != s.outPos {
      TailOfRead(Do(s, ReadTest));
    }
    RunFirst(s, ReadTest, rest);
    ReadsFirst(EventOf(s, ReadTest), Events(Do(s, ReadTest), rest));
    steps := [ReadTest] + rest;
  }

  lemma TailOfRead(s: State)
    requires Inv(s) && s.reader == ReadData
    ensures var rest := [ReadSlot, ReadAdvance];
      && Runs(s, rest) && Sane(After(s, rest)) && After(s, rest).reader == Idle
      && Abs(After(s, rest)) == Take(Abs(s)) && Reads(Events(s, rest)) == [Front(Abs(s))]
  {
    var u := Do(s, ReadSlot);
    StepSimulated(s, ReadSlot);
    StepSimulated(u, ReadAdvance);
    RunFirst(u, ReadAdvance, []);
    RunFirst(s, ReadSlot, [ReadAdvance]);
    ReadsFirst(EventOf(s, ReadSlot), Events(u, [ReadAdvance]));
    ReadsFirst(EventOf(u, ReadAdvance), []);
  }

  lemma ReadsFirst(e: Event, later: seq<Event>)
    ensures Reads([e] + later) == (if e.ReadReturned? then [e.r] else []) + Reads(later)
  {
    assert ([e] + later)[1..] == later;
  }

  function Saws(events: seq<Event>): seq<int> {
    if events == [] then []
    else if events[0].AnySaw? then [events[0].n] + Saws(events[1..])
    else Saws(events[1..])
  }

  /** What the calls of `sw_any` return in a history. */
  function Counts(events: seq<Event>): seq<int> {
    if events == [] then []
    else if events[0].AnyReturned? then [events[0].n] + Counts(events[1..])
    else Counts(events[1..])
  }

  function Counting(s: State): seq<int> {
    if s.reader.AnySeen? then [AnyC(s.size, s.outPos, s.reader.seen)] else []
  }

  /** Each call of `sw_any` returns the length the queue had when it loaded `inPos`,
      whatever arrives before it returns. */
  lemma {:induction false} AnyReturnsWhatItSaw(s: State, steps: seq<Step>)
    requires Runs(s, steps)
    ensures Counting(s) + Saws(Events(s, steps)) == Counts(Events(s, steps)) + Counting(After(s, steps))
    decreases |steps|
  {
    if steps != [] {
      var u, e := Do(s, steps[0]), EventOf(s, steps[0]);
      var later := Events(u, steps[1..]);
      AnyReturnsWhatItSaw(u, steps[1..]);
      var first := if e.AnySaw? then [e.n] else [];
      var out := if e.AnyReturned? then [e.n] else [];
      assert Counting(s) + first == out + Counting(u);
      Splice(Counting(s), first, Saws(later), out, Counting(u), Counts(later), Counting(After(s, steps)));
      assert Events(s, steps)[1..] == later;
    }
  }

  /** While no new `sw_any` starts, the reads return the promised bytes in order,
      however many handler steps come in between. */
  lemma {:induction false} PromiseKept(s: State, steps: seq<Step>, k: nat)
    requires Inv(s) && Runs(s, steps) && AnyFetch !in steps
    requires k < |Reads(Events(s, steps))| && k < |s.promise|
    ensures Reads(Events(s, steps))[k] == s.promise[k] as int
    decreases |steps|
  {
    var step, rest := steps[0], steps[1..];
    StepSimulated(s, step);
    StepPromises(s, step);
    var u := Do(s, step);
    assert Events(s, steps) == [EventOf(s, step)] + Events(u, rest);
    ReadsFirst(EventOf(s, step), Events(u, rest));
    if step.ReadAdvance? {
      if k > 0 { PromiseKept(u, rest, k - 1); }
    } else {
      PromiseKept(u, rest, k);
    }
  }

  /** A step that returns a byte returns the first one promised; no other step, if
      anything is promised, returns from `sw_read` or touches the promise. */
  lemma StepPromises(s: State, step: Step)
    requires Inv(s) && Enabled(s, step) && !step.AnyFetch? && s.promise != []
    ensures var e, u := EventOf(s, step), Do(s, step);
      if step.ReadAdvance? then e == ReadReturned(s.promise[0] as int) && u.promise == s.promise[1..]
      else !e.ReadReturned? && u.promise == s.promise
  {
    EmptyIffIndicesMeet(s.buffer, s.outPos, s.inPos);
    if step.ReadAdvance? { ReaderAdvance(s); }
  }

  /** Draining is safe: `sw_any` returns a number n such that the next n reads
      return the n oldest bytes of that moment in order, and so never -1. */
  lemma DrainIsSafe(s: State, steps: seq<Step>)
    requires Inv(s) && s.reader.AnySeen? && Runs(s, steps) && AnyFetch !in steps
    ensures var n, results := AnyC(s.size, s.outPos, s.reader.seen), Reads(Events(s, steps));
      && 0 <= n <= |Items(s)|
      && forall k | 0 <= k < n && k < |results| :: results[k] == Items(s)[k] as int && results[k] != -1
  {
    var n, results := |s.promise|, Reads(Events(s, steps));
    forall k | 0 <= k < n && k < |results| ensures results[k] == Items(s)[k] as int && results[k] != -1 {
      PromiseKept(s, steps, k);
      assert s.promise[k] == Items(s)[k];
    }
  }
}
