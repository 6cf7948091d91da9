/** Key negotiation over BLE: who owns the buffers, and when a key is set.

    The crypto library's results and those of `malloc` are inputs. */
module Blufi {
  import opened Memory
  import opened Option

  const SEC_TYPE_DH_PARAM_LEN := 0x00
  const SEC_TYPE_DH_PARAM_DATA := 0x01

  datatype Error = InitSecurity | DhMalloc | DhParam | ReadParam | MakePublic | CalcMd5

  type Byte = n: nat | n < 256

  /** A negotiation message, byte by byte, and how the calls made while handling it
      turn out. */
  datatype Message = Message(data: nat -> Byte)
  datatype Calls = Calls(mallocOk: bool, readOk: bool, makeOk: bool, md5Ok: bool)

  /** The two bytes of a length message, the high one first. */
  function LengthOf(m: Message): nat {
    256 * m.data(1) + m.data(2)
  }

  datatype Event =
    | Connect(mallocOk: bool)
    | Disconnect
    | Negotiate(message: Message, calls: Calls)

  datatype Outcome = Quiet | LengthAccepted | KeySet | Failed(error: Error)

  /** The allocated `struct blufi_security`: its block, and the parameter buffer. */
  datatype Security = Security(block: nat, dhParam: Option<nat>, dhParamLen: nat)

  datatype State = State(heap: Heap, sec: Option<Security>, connected: bool, structSize: nat)

  function Boot(structSize: nat): State {
    State(Empty(), None, false, structSize)
  }

  /** A length message replaces the parameter buffer. */
  function OnLength(s: State, sec: Security, len: nat, mallocOk: bool): State {
    var h := if sec.dhParam.Some? then Free(s.heap, sec.dhParam.value) else s.heap;
    var (h', block) := Malloc(h, len, mallocOk);
    s.(heap := h', sec := Some(sec.(dhParam := block, dhParamLen := len)))
  }

  /** The bytes of a data message after its kind, as many as the buffer is long. */
  function Copied(m: Message, len: nat): (bytes: seq<Byte>)
    ensures |bytes| == len
  {
    seq<Byte>(len, i requires 0 <= i => m.data(i + 1))
  }

  /** A data message fills the buffer, and consumes it once it has been parsed. */
  function OnData(s: State, sec: Security, m: Message, calls: Calls): State {
    match sec.dhParam
    case None => s
    case Some(block) =>
      var h := Write(s.heap, block, |Copied(m, sec.dhParamLen)|);
      if calls.readOk then s.(heap := Free(h, block), sec := Some(sec.(dhParam := None)))
      else s.(heap := h)
  }

  function Release(s: State): State {
    match s.sec
    case None => s
    case Some(sec) =>
      var h := if sec.dhParam.Some? then Free(s.heap, sec.dhParam.value) else s.heap;
      s.(heap := Free(Write(h, sec.block, s.structSize), sec.block), sec := None)
  }

  function Next(s: State, e: Event): State {
    match e
    case Connect(ok) =>
      var (h, block) := Malloc(s.heap, s.structSize, ok);
      s.(heap := h, connected := true, sec := if block.Some? then Some(Security(block.value, None, 0)) else None)
    case Disconnect => Release(s.(connected := false))
    case Negotiate(m, calls) =>
      if s.sec.None? then s
      else if m.data(0) == SEC_TYPE_DH_PARAM_LEN then OnLength(s, s.sec.value, LengthOf(m), calls.mallocOk)
      else if m.data(0) == SEC_TYPE_DH_PARAM_DATA then OnData(s, s.sec.value, m, calls)
      else s
  }

  function OutcomeOf(s: State, e: Event): Outcome {
    match e
    case Connect(_) => Quiet
    case Disconnect => Quiet
    case Negotiate(m, calls) =>
      if s.sec.None? then Failed(InitSecurity)
      else if m.data(0) == SEC_TYPE_DH_PARAM_LEN then if calls.mallocOk then LengthAccepted else Failed(DhMalloc)
      else if m.data(0) == SEC_TYPE_DH_PARAM_DATA then
        if s.sec.value.dhParam.None? then Failed(DhParam)
        else if !calls.readOk then Failed(ReadParam)
        else if !calls.makeOk then Failed(MakePublic)
        else if !calls.md5Ok then Failed(CalcMd5)
        else KeySet
      else Quiet
  }

  /** What a data message copies into the parameter buffer and hands to the parser. */
  function ParserInput(s: State, m: Message): Option<seq<Byte>> {
    if m.data(0) == SEC_TYPE_DH_PARAM_DATA && Pending(s) then
      Some(Copied(m, s.sec.value.dhParamLen))
    else None
  }

  function Run(s: State, events: seq<Event>): State
    decreases |events|
  {
    if events == [] then s else Run(Next(s, events[0]), events[1..])
  }

  /** The blocks the program can still reach. */
  function Owned(s: State): set<nat> {
    match s.sec
    case None => {}
    case Some(sec) => {sec.block} + if sec.dhParam.Some? then {sec.dhParam.value} else {}
  }

  /** Blocks nobody can reach or free any more. */
  function Leaked(s: State): set<nat> {
    s.heap.live.Keys - Owned(s)
  }

  /** A parameter buffer waits for its data message. */
  predicate Pending(s: State) {
    s.sec.Some? && s.sec.value.dhParam.Some?
  }

  ghost predicate Inv(s: State) {
    && Sound(s.heap)
    && Owned(s) <= s.heap.live.Keys
    && (s.sec.Some? ==> s.connected && s.heap.live[s.sec.value.block] == s.structSize)
    && (Pending(s) ==>
          && s.sec.value.dhParam.value != s.sec.value.block
          && s.heap.live[s.sec.value.dhParam.value] == s.sec.value.dhParamLen)
  }

  /** What a step adds to the leaked blocks: connecting forgets a live session. */
  function Forgotten(s: State, e: Event): set<nat> {
    if e.Connect? then Owned(s) else {}
  }

  lemma ConnectStep(s: State, ok: bool)
    requires Inv(s)
    ensures Inv(Next(s, Connect(ok))) && Leaked(Next(s, Connect(ok))) == Leaked(s) + Owned(s)
  {
    MallocSound(s.heap, s.structSize, ok);
  }

  lemma DisconnectStep(s: State)
    requires Inv(s)
    ensures Inv(Next(s, Disconnect)) && Leaked(Next(s, Disconnect)) == Leaked(s)
    ensures Owned(Next(s, Disconnect)) == {}
  {
    if s.sec.Some? {
      var sec := s.sec.value;
      var h := s.heap;
      if sec.dhParam.Some? {
        FreeSound(h, sec.dhParam.value);
        h := Free(h, sec.dhParam.value);
      }
      FreeSound(h, sec.block);
    }
  }

  lemma LengthStep(s: State, len: nat, ok: bool)
    requires Inv(s) && s.sec.Some?
    ensures Inv(OnLength(s, s.sec.value, len, ok)) && Leaked(OnLength(s, s.sec.value, len, ok)) == Leaked(s)
  {
    var sec, h := s.sec.value, s.heap;
    if sec.dhParam.Some? {
      FreeSound(h, sec.dhParam.value);
      h := Free(h, sec.dhParam.value);
    }
    MallocSound(h, len, ok);
  }

  lemma DataStep(s: State, m: Message, calls: Calls)
    requires Inv(s) && s.sec.Some?
    ensures Inv(OnData(s, s.sec.value, m, calls)) && Leaked(OnData(s, s.sec.value, m, calls)) == Leaked(s)
  {
    if Pending(s) {
      FreeSound(s.heap, s.sec.value.dhParam.value);
    }
  }

  lemma NegotiateStep(s: State, m: Message, calls: Calls)
    requires Inv(s)
    ensures Inv(Next(s, Negotiate(m, calls))) && Leaked(Next(s, Negotiate(m, calls))) == Leaked(s)
  {
    if s.sec.Some? {
      if m.data(0) == SEC_TYPE_DH_PARAM_LEN {
        LengthStep(s, LengthOf(m), calls.mallocOk);
        assert Next(s, Negotiate(m, calls)) == OnLength(s, s.sec.value, LengthOf(m), calls.mallocOk);
      } else if m.data(0) == SEC_TYPE_DH_PARAM_DATA {
        DataStep(s, m, calls);
        assert Next(s, Negotiate(m, calls)) == OnData(s, s.sec.value, m, calls);
      }
    }
  }

  lemma StepKeepsInv(s: State, e: Event)
    requires Inv(s)
    ensures Inv(Next(s, e)) && Leaked(Next(s, e)) == Leaked(s) + Forgotten(s, e)
  {
    match e
    case Connect(ok) => ConnectStep(s, ok);
    case Disconnect => DisconnectStep(s);
    case Negotiate(m, calls) => NegotiateStep(s, m, calls);
  }

  /** No connect event arrives while a session's memory is still held. */
  predicate NoReconnect(s: State, events: seq<Event>)
    decreases |events|
  {
    events == [] ||
    ((events[0].Connect? ==> s.sec.None?) && NoReconnect(Next(s, events[0]), events[1..]))
  }

  /** Connects and disconnects alternate. */
  predicate Alternating(connected: bool, events: seq<Event>)
    decreases |events|
  {
    events == [] ||
    match events[0]
    case Connect(_) => !connected && Alternating(true, events[1..])
    case Disconnect => connected && Alternating(false, events[1..])
    case Negotiate(_, _) => Alternating(connected, events[1..])
  }

  lemma {:induction false} AlternatingNeverReconnects(s: State, events: seq<Event>)
    requires Inv(s) && Alternating(s.connected, events)
    ensures NoReconnect(s, events)
    decreases |events|
  {
    if events != [] {
      StepKeepsInv(s, events[0]);
      AlternatingNeverReconnects(Next(s, events[0]), events[1..]);
    }
  }

  /** What connecting over a live session forgets was not leaked before. */
  lemma ForgettingLeaks(s: State, e: Event)
    requires Inv(s)
    ensures Leaked(s) <= Leaked(Next(s, e))
    ensures Leaked(Next(s, e)) == Leaked(s) <==> (e.Connect? ==> s.sec.None?)
  {
    StepKeepsInv(s, e);
    if e.Connect? && s.sec.Some? {
      assert s.sec.value.block in Forgotten(s, e) && s.sec.value.block !in Leaked(s);
    }
  }

  lemma {:induction false} LeaksOnlyGrow(s: State, events: seq<Event>)
    requires Inv(s)
    ensures Inv(Run(s, events)) && Leaked(s) <= Leaked(Run(s, events))
    ensures Leaked(Run(s, events)) == Leaked(s) <==> NoReconnect(s, events)
    decreases |events|
  {
    if events != [] {
      StepKeepsInv(s, events[0]);
      ForgettingLeaks(s, events[0]);
      LeaksOnlyGrow(Next(s, events[0]), events[1..]);
    }
  }

  /** Ownership, over any sequence of events at all and however the calls turn
      out: no block is freed twice or used after it was freed, no write leaves its
      block, every block ever allocated is live or was freed once, and a live
      session implies a connection. Nothing is leaked if and only if no connect
      event arrives while a session is held. */
  lemma Ownership(structSize: nat, events: seq<Event>)
    ensures var s := Run(Boot(structSize), events);
      && !s.heap.fault
      && s.heap.total == s.heap.freed + |s.heap.live|
      && (s.sec.Some? ==> s.connected)
      && (s.heap.live.Keys == Owned(s) <==> NoReconnect(Boot(structSize), events))
  {
    var s := Run(Boot(structSize), events);
    LeaksOnlyGrow(Boot(structSize), events);
    assert s.heap.live.Keys == Owned(s) <==> Leaked(s) == {};
  }

  /** Two connect events in a row: the first session's block is lost. */
  lemma ReconnectLeaks(structSize: nat)
    ensures var s := Run(Boot(structSize), [Connect(true), Connect(true)]);
      0 in s.heap.live && Owned(s) == {1}
  {
    var s1 := Next(Boot(structSize), Connect(true));
    assert [Connect(true), Connect(true)][1..] == [Connect(true)] && [Connect(true)][1..] == [];
    assert Run(s1, [Connect(true)]) == Next(s1, Connect(true));
  }

  lemma {:induction false} RunSnoc(s: State, events: seq<Event>, e: Event)
    ensures Run(s, events + [e]) == Next(Run(s, events), e)
    decreases |events|
  {
    if events != [] {
      assert (events + [e])[1..] == events[1..] + [e];
      RunSnoc(Next(s, events[0]), events[1..], e);
    } else {
      assert ([e])[1..] == [];
    }
  }

  /** After sessions that alternate properly, a disconnect leaves no block behind. */
  lemma DisconnectFreesAll(structSize: nat, events: seq<Event>)
    requires Alternating(false, events + [Disconnect])
    ensures Run(Boot(structSize), events + [Disconnect]).heap.live == map[]
  {
    var s0, all := Boot(structSize), events + [Disconnect];
    AlternatingNeverReconnects(s0, all);
    Ownership(structSize, all);
    RunSnoc(s0, events, Disconnect);
    LeaksOnlyGrow(s0, events);
    DisconnectStep(Run(s0, events));
    assert Run(s0, all).heap.live.Keys == {};
  }

  function Count(s: State, events: seq<Event>, what: Outcome): nat
    decreases |events|
  {
    if events == [] then 0
    else (if OutcomeOf(s, events[0]) == what then 1 else 0) + Count(Next(s, events[0]), events[1..], what)
  }

  /** Every key set uses up an accepted length message. The lemma speaks of any
      stretch of a history, so between two key settings there is an accepted
      length message, and the first key of a session comes after its first one. */
  lemma {:induction false} KeyNeedsLength(s: State, events: seq<Event>)
    ensures Count(s, events, KeySet) + (if Pending(Run(s, events)) then 1 else 0)
         <= Count(s, events, LengthAccepted) + (if Pending(s) then 1 else 0)
    decreases |events|
  {
    if events != [] {
      KeyNeedsLength(Next(s, events[0]), events[1..]);
    }
  }

  /** In particular, counting from any connect event. */
  lemma KeysPerSession(s: State, ok: bool, events: seq<Event>)
    ensures var u := Next(s, Connect(ok)); Count(u, events, KeySet) <= Count(u, events, LengthAccepted)
  {
    KeyNeedsLength(Next(s, Connect(ok)), events);
  }

  /** Judged by the events alone: the last connect or disconnect was a connect. */
  predicate LastIsConnect(events: seq<Event>) {
    if |events| == 0 then false
    else
      match events[|events| - 1]
      case Connect(_) => true
      case Disconnect => false
      case Negotiate(_, _) => LastIsConnect(events[..|events| - 1])
  }

  /** It was one whose allocation succeeded. */
  predicate InSession(events: seq<Event>) {
    if |events| == 0 then false
    else
      match events[|events| - 1]
      case Connect(ok) => ok
      case Disconnect => false
      case Negotiate(_, _) => InSession(events[..|events| - 1])
  }

  /** In this session a length message was accepted, and since then none has failed
      and no data message has been parsed. */
  predicate Awaiting(events: seq<Event>) {
    if |events| == 0 then false
    else
      var init := events[..|events| - 1];
      match events[|events| - 1]
      case Connect(_) => false
      case Disconnect => false
      case Negotiate(m, calls) =>
        if m.data(0) == SEC_TYPE_DH_PARAM_LEN then InSession(init) && calls.mallocOk
        else if m.data(0) == SEC_TYPE_DH_PARAM_DATA then Awaiting(init) && !calls.readOk
        else Awaiting(init)
  }

  /** After any events: the connection flag, the session and the pending buffer are
      what the events say. */
  lemma {:induction false} HistoryTells(structSize: nat, events: seq<Event>)
    ensures var s := Run(Boot(structSize), events);
      && (s.connected <==> LastIsConnect(events))
      && (s.sec.Some? <==> InSession(events))
      && (Pending(s) <==> Awaiting(events))
    decreases |events|
  {
    if |events| > 0 {
      var init, e := events[..|events| - 1], events[|events| - 1];
      HistoryTells(structSize, init);
      assert events == init + [e];
      RunSnoc(Boot(structSize), init, e);
    }
  }

  /** What a negotiation message leads to, after any events. The key is set exactly
      when a buffer is awaited and reading, making the public key and hashing all
      succeed; each error is reported exactly in its case. */
  lemma Outcomes(structSize: nat, events: seq<Event>, m: Message, calls: Calls)
    ensures var o := OutcomeOf(Run(Boot(structSize), events), Negotiate(m, calls));
      var isLength, isData := m.data(0) == 0x00, m.data(0) == 0x01;
      var parsed := isData && Awaiting(events) && calls.readOk;
      && (o == Failed(InitSecurity) <==> !InSession(events))
      && (o == LengthAccepted <==> InSession(events) && isLength && calls.mallocOk)
      && (o == Failed(DhMalloc) <==> InSession(events) && isLength && !calls.mallocOk)
      && (o == Failed(DhParam) <==> InSession(events) && isData && !Awaiting(events))
      && (o == Failed(ReadParam) <==> isData && Awaiting(events) && !calls.readOk)
      && (o == Failed(MakePublic) <==> parsed && !calls.makeOk)
      && (o == Failed(CalcMd5) <==> parsed && calls.makeOk && !calls.md5Ok)
      && (o == KeySet <==> parsed && calls.makeOk && calls.md5Ok)
      && (o == Quiet <==> InSession(events) && !isLength && !isData)
  {
    HistoryTells(structSize, events);
    AwaitingInSession(events);
  }

  lemma {:induction false} AwaitingInSession(events: seq<Event>)
    ensures Awaiting(events) ==> InSession(events)
    decreases |events|
  {
    if |events| > 0 { AwaitingInSession(events[..|events| - 1]); }
  }

  /** An event that leaves a pending buffer alone. */
  predicate Keeps(e: Event) {
    && e.Negotiate?
    && e.message.data(0) != SEC_TYPE_DH_PARAM_LEN
    && (e.message.data(0) == SEC_TYPE_DH_PARAM_DATA ==> !e.calls.readOk)
  }

  lemma KeepsBuffer(s: State, e: Event)
    requires Inv(s) && Pending(s) && Keeps(e)
    ensures Inv(Next(s, e)) && Next(s, e).sec == s.sec && PendingSize(Next(s, e)) == PendingSize(s)
  {
    StepKeepsInv(s, e);
  }

  lemma {:induction false} BufferStays(s: State, events: seq<Event>)
    requires Inv(s) && Pending(s) && forall i | 0 <= i < |events| :: Keeps(events[i])
    ensures var t := Run(s, events); Inv(t) && t.sec == s.sec && PendingSize(t) == PendingSize(s)
    decreases |events|
  {
    if events != [] {
      KeepsBuffer(s, events[0]);
      BufferStays(Next(s, events[0]), events[1..]);
    }
  }

  /** The size of the pending parameter buffer. */
  function PendingSize(s: State): nat
    requires Pending(s) && s.sec.value.dhParam.value in s.heap.live
  {
    s.heap.live[s.sec.value.dhParam.value]
  }

  lemma LengthAcceptedMeans(s: State, m: Message, calls: Calls)
    requires Inv(s) && OutcomeOf(s, Negotiate(m, calls)) == LengthAccepted
    ensures var u := Next(s, Negotiate(m, calls));
      Inv(u) && Pending(u) && PendingSize(u) / 256 == m.data(1) && PendingSize(u) % 256 == m.data(2)
  {
    var u := Next(s, Negotiate(m, calls));
    assert Inv(u) by {
      StepKeepsInv(s, Negotiate(m, calls));
    }
    assert Pending(u) && PendingSize(u) == LengthOf(m);
    HighAndLow(m.data(1), m.data(2));
  }

  lemma DataFillsBuffer(s: State, data: Message)
    requires Inv(s) && Pending(s) && data.data(0) == 0x01
    ensures ParserInput(s, data).Some? && |ParserInput(s, data).value| == PendingSize(s)
    ensures forall i | 0 <= i < PendingSize(s) :: ParserInput(s, data).value[i] == data.data(i + 1)
  {
  }

  /** An accepted length message fixes how much the next data message is worth,
      whatever other messages and failed data messages come in between: the live
      buffer has a size whose high and low byte are those of the message, and the
      data message has exactly that many of its bytes copied and parsed. */
  lemma {:induction false} LengthGoverns(s: State, m: Message, calls: Calls, between: seq<Event>, data: Message)
    requires Inv(s) && OutcomeOf(s, Negotiate(m, calls)) == LengthAccepted
    requires forall i | 0 <= i < |between| :: Keeps(between[i])
    requires data.data(0) == 0x01
    ensures var t := Run(Next(s, Negotiate(m, calls)), between);
      && Pending(t) && t.sec.value.dhParam.value in t.heap.live
      && PendingSize(t) / 256 == m.data(1) && PendingSize(t) % 256 == m.data(2)
      && ParserInput(t, data).Some? && |ParserInput(t, data).value| == PendingSize(t)
      && forall i | 0 <= i < PendingSize(t) :: ParserInput(t, data).value[i] == data.data(i + 1)
  {
    var u := Next(s, Negotiate(m, calls));
    LengthAcceptedMeans(s, m, calls);
    BufferStays(u, between);
    DataFillsBuffer(Run(u, between), data);
  }

  lemma HighAndLow(high: Byte, low: Byte)
    ensures (256 * high + low) / 256 == high && (256 * high + low) % 256 == low
  {
  }

  /** `struct blufi_security`, updated in place. */
  class SecurityBlock {
    const block: nat
    var dhParam: Option<nat>
    var dhParamLen: nat

    constructor (b: nat)
      ensures block == b && dhParam == None && dhParamLen == 0
    {
      block, dhParam, dhParamLen := b, None, 0;
    }
  }

  /** The globals of the two source files, and the handlers that update them. */
  class Device {
    const structSize: nat
    var heap: Heap
    var blufiSec: SecurityBlock?
    var bleIsConnected: bool

    function Abs(): State
      reads this, blufiSec
    {
      State(heap,
        if blufiSec == null then None else Some(Security(blufiSec.block, blufiSec.dhParam, blufiSec.dhParamLen)),
        bleIsConnected, structSize)
    }

    constructor (size: nat)
      ensures Abs() == Boot(size)
    {
      structSize, heap, blufiSec, bleIsConnected := size, Empty(), null, false;
    }

    method SecurityInit(mallocOk: bool) returns (ok: bool)
      modifies this`heap, this`blufiSec
      ensures ok == mallocOk && bleIsConnected == old(bleIsConnected)
      ensures blufiSec != null ==> fresh(blufiSec)
      ensures Abs() == Next(old(Abs()), Connect(mallocOk)).(connected := bleIsConnected)
    {
      var (h, block) := Malloc(heap, structSize, mallocOk);
      heap := h;
      if block.None? {
        blufiSec := null;
        return false;
      }
      blufiSec := new SecurityBlock(block.value);
      return true;
    }

    method SecurityDeinit()
      modifies this`heap, this`blufiSec, blufiSec
      ensures blufiSec == null
      ensures Abs() == Release(old(Abs()))
    {
      if blufiSec == null {
        return;
      }
      if blufiSec.dhParam.Some? {
        heap := Free(heap, blufiSec.dhParam.value);
        blufiSec.dhParam := None;
      }
      heap := Write(heap, blufiSec.block, structSize);
      heap := Free(heap, blufiSec.block);
      blufiSec := null;
    }

    method EventCallback(e: Event)
      requires e.Connect? || e.Disconnect?
      modifies this, blufiSec
      ensures Abs() == Next(old(Abs()), e)
    {
      if e.Connect? {
        bleIsConnected := true;
        var _ := SecurityInit(e.mallocOk);
      } else {
        bleIsConnected := false;
        SecurityDeinit();
      }
    }

    method NegotiateData(m: Message, calls: Calls)
      returns (outcome: Outcome, parsed: Option<seq<Byte>>)
      modifies this`heap, blufiSec
      ensures Abs() == Next(old(Abs()), Negotiate(m, calls))
      ensures outcome == OutcomeOf(old(Abs()), Negotiate(m, calls))
      ensures parsed == ParserInput(old(Abs()), m)
    {
      parsed := None;
      if blufiSec == null {
        return Failed(InitSecurity), parsed;
      }
      if m.data(0) == SEC_TYPE_DH_PARAM_LEN {
        blufiSec.dhParamLen := LengthOf(m);
        if blufiSec.dhParam.Some? {
          heap := Free(heap, blufiSec.dhParam.value);
          blufiSec.dhParam := None;
        }
        var (h, block) := Malloc(heap, blufiSec.dhParamLen, calls.mallocOk);
        heap := h;
        blufiSec.dhParam := block;
        if blufiSec.dhParam.None? {
          return Failed(DhMalloc), parsed;
        }
        return LengthAccepted, parsed;
      } else if m.data(0) == SEC_TYPE_DH_PARAM_DATA {
        if blufiSec.dhParam.None? {
          return Failed(DhParam), parsed;
        }
        parsed := Some(seq<Byte>(blufiSec.dhParamLen, i requires 0 <= i => m.data(i + 1)));
        heap := Write(heap, blufiSec.dhParam.value, |parsed.value|);
        if !calls.readOk {
          return Failed(ReadParam), parsed;
        }
        heap := Free(heap, blufiSec.dhParam.value);
        blufiSec.dhParam := None;
        if !calls.makeOk {
          return Failed(MakePublic), parsed;
        }
        if !calls.md5Ok {
          return Failed(CalcMd5), parsed;
        }
        return KeySet, parsed;
      }
      return Quiet, parsed;
    }
  }
}
