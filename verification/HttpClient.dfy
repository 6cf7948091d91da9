/** The HTTP event handler, which collects a response in its static variables. */
module HttpClient {
  import opened Memory
  import opened Option

  /** `toUser` says that the client was configured with a destination of its own;
      otherwise `block` is what `malloc` returns if it is called: nothing, or a
      block of the announced content length with arbitrary contents. */
  datatype Event =
    | OnData(payload: seq<bv8>, chunked: bool, toUser: bool, block: Option<seq<bv8>>)
    | OnFinish
    | OnDisconnected
    | OtherEvent

  /** An allocated destination: its block and what it contains. */
  datatype Buffer = Buffer(block: nat, bytes: seq<bv8>)

  /** The statics `output_buffer` and `output_len`, the user's destination, and the
      heap. A copy past the end of the user's destination also counts as a fault. */
  datatype State = State(heap: Heap, output: Option<Buffer>, len: nat, user: seq<bv8>)

  function Boot(user: seq<bv8>): State {
    State(Empty(), None, 0, user)
  }

  predicate Fits(dst: seq<bv8>, at: nat, data: seq<bv8>) {
    at + |data| <= |dst|
  }

  /** `memcpy(dst + at, data)`. */
  function Blit(dst: seq<bv8>, at: nat, data: seq<bv8>): (r: seq<bv8>)
    ensures |r| == |dst|
  {
    if Fits(dst, at, data) then dst[..at] + data + dst[at + |data|..] else dst
  }

  function CopyToUser(s: State, data: seq<bv8>): State {
    s.(user := Blit(s.user, s.len, data), len := s.len + |data|, heap := Check(s.heap, Fits(s.user, s.len, data)))
  }

  function CopyToOutput(s: State, data: seq<bv8>): State
    requires s.output.Some?
  {
    var Buffer(block, bytes) := s.output.value;
    s.(output := Some(Buffer(block, Blit(bytes, s.len, data))), len := s.len + |data|,
       heap := Write(s.heap, block, s.len + |data|))
  }

  function Reset(s: State): State {
    if s.output.Some? then s.(output := None, len := 0, heap := Free(s.heap, s.output.value.block)) else s.(len := 0)
  }

  /** The allocation on the first data event that needs one. */
  function Prepare(s: State, block: Option<seq<bv8>>): State {
    if s.output.Some? then s
    else if block.None? then s.(len := 0)
    else
      var (h, p) := Malloc(s.heap, |block.value|, true);
      s.(heap := h, output := Some(Buffer(p.value, block.value)), len := 0)
  }

  function Next(s: State, e: Event): State {
    match e
    case OnData(payload, chunked, toUser, block) =>
      if chunked then s
      else if toUser then CopyToUser(s, payload)
      else
        var p := Prepare(s, block);
        if p.output.None? then p else CopyToOutput(p, payload)
    case OnFinish => Reset(s)
    case OnDisconnected => Reset(s)
    case OtherEvent => s
  }

  function Run(s: State, events: seq<Event>): State {
    if events == [] then s else Next(Run(s, events[..|events| - 1]), events[|events| - 1])
  }

  /** The events of one response, before it finishes: the destination and the
      encoding are properties of the request. */
  predicate Body(events: seq<Event>, toUser: bool, chunked: bool) {
    forall e | e in events :: e.OtherEvent? || (e.OnData? && e.toUser == toUser && e.chunked == chunked)
  }

  /** All the payload of the events. */
  function Payload(events: seq<Event>): seq<bv8> {
    if events == [] then []
    else
      var last := events[|events| - 1];
      if last.OnData? then Payload(events[..|events| - 1]) + last.payload else Payload(events[..|events| - 1])
  }

  /** The contents of the first block the events' allocations could get. */
  function FirstBlock(events: seq<Event>): Option<seq<bv8>> {
    if events == [] then None
    else
      var init, last := events[..|events| - 1], events[|events| - 1];
      if FirstBlock(init).None? && last.OnData? then last.block else FirstBlock(init)
  }

  /** What the response is written over, if anything. */
  function Original(user: seq<bv8>, events: seq<Event>, toUser: bool): Option<seq<bv8>> {
    if toUser then Some(user) else FirstBlock(events)
  }

  /** The payload for which there is a destination: all of it for the user's, for an
      own buffer that from the event on which the first allocation succeeds. */
  function Stored(events: seq<Event>, toUser: bool): seq<bv8> {
    if events == [] then []
    else
      var init, last := events[..|events| - 1], events[|events| - 1];
      if last.OnData? && (toUser || FirstBlock(events).Some?) then Stored(init, toUser) + last.payload
      else Stored(init, toUser)
  }

  /** No payload, but perhaps an empty one, met a failed allocation. */
  predicate NothingRefused(events: seq<Event>, toUser: bool) {
    events == [] ||
    var init, last := events[..|events| - 1], events[|events| - 1];
    && NothingRefused(init, toUser)
    && (last.OnData? && !toUser && FirstBlock(events).None? ==> last.payload == [])
  }

  /** The bytes the response went to. */
  function Destination(s: State, toUser: bool): seq<bv8> {
    if toUser then s.user else if s.output.Some? then s.output.value.bytes else []
  }

  /** The live blocks are exactly the one in use, which has the size of its contents. */
  ghost predicate Owns(s: State) {
    && Accounted(s.heap)
    && s.heap.live == if s.output.Some? then map[s.output.value.block := |s.output.value.bytes|] else map[]
  }

  /** Both statics are as they were at the start. */
  predicate AtRest(s: State) {
    s.output.None? && s.len == 0
  }

  /** A response to an own buffer may even follow one that never ended. */
  ghost predicate Ready(s: State, toUser: bool) {
    Owns(s) && !s.heap.fault && s.output.None? && (toUser ==> s.len == 0)
  }

  /** `dst` holds the stored bytes in place of the first ones of `original`, the
      rest of which is as it was; `fault` says that they did not fit. */
  ghost predicate Overlaid(dst: seq<bv8>, len: nat, fault: bool, stored: seq<bv8>, original: seq<bv8>) {
    && len == |stored| && |dst| == |original|
    && (!fault <==> |stored| <= |original|)
    && (!fault ==> dst == stored + original[|stored|..])
  }

  /** The state after some events of a response to a non-chunked request. */
  ghost predicate Collected(s: State, user: seq<bv8>, stored: seq<bv8>, original: Option<seq<bv8>>, toUser: bool) {
    && Owns(s)
    && (if toUser then s.output.None? else s.user == user && (s.output.Some? <==> original.Some?))
    && match original
       case None => !s.heap.fault && stored == []
       case Some(o) => Overlaid(Destination(s, toUser), s.len, s.heap.fault, stored, o)
  }

  lemma PrepareOwns(s: State, block: Option<seq<bv8>>)
    requires Owns(s)
    ensures Owns(Prepare(s, block)) && Prepare(s, block).heap.fault == s.heap.fault
  {
    if s.output.None? && block.Some? { MallocSound(s.heap, |block.value|, true); }
  }

  /** A copy that fits puts the data at its place and leaves every other byte. */
  lemma BlitByIndex(dst: seq<bv8>, at: nat, data: seq<bv8>)
    requires Fits(dst, at, data)
    ensures forall k | 0 <= k < |data| :: Blit(dst, at, data)[at + k] == data[k]
    ensures forall i | 0 <= i < |dst| && !(at <= i < at + |data|) :: Blit(dst, at, data)[i] == dst[i]
  {
  }

  lemma CopyOverlaid(dst: seq<bv8>, len: nat, fault: bool, stored: seq<bv8>, original: seq<bv8>, data: seq<bv8>)
    requires Overlaid(dst, len, fault, stored, original)
    ensures Overlaid(Blit(dst, len, data), len + |data|, fault || !Fits(dst, len, data), stored + data, original)
  {
    if Fits(dst, len, data) {
      BlitByIndex(dst, len, data);
      assert Blit(dst, len, data) == (stored + data) + original[|stored| + |data|..];
    }
  }

  lemma CopyOwns(s: State, data: seq<bv8>)
    requires Owns(s) && s.output.Some?
    ensures Owns(CopyToOutput(s, data))
    ensures CopyToOutput(s, data).heap.fault <==> s.heap.fault || !Fits(s.output.value.bytes, s.len, data)
  {
  }

  lemma UserStep(s: State, user: seq<bv8>, stored: seq<bv8>, data: seq<bv8>)
    requires Collected(s, user, stored, Some(user), true)
    ensures Collected(CopyToUser(s, data), user, stored + data, Some(user), true)
  {
    CopyOverlaid(s.user, s.len, s.heap.fault, stored, user, data);
  }

  lemma OutputStep(s: State, user: seq<bv8>, stored: seq<bv8>, original: Option<seq<bv8>>,
                   data: seq<bv8>, block: Option<seq<bv8>>)
    requires Collected(s, user, stored, original, false)
    ensures var o := if original.None? then block else original;
      if o.None? then Collected(Prepare(s, block), user, stored, o, false)
      else Collected(CopyToOutput(Prepare(s, block), data), user, stored + data, o, false)
  {
    var p := Prepare(s, block);
    PrepareOwns(s, block);
    if p.output.Some? {
      var o := if original.None? then block.value else original.value;
      assert Overlaid(p.output.value.bytes, p.len, p.heap.fault, stored, o);
      CopyOverlaid(p.output.value.bytes, p.len, p.heap.fault, stored, o, data);
      CopyOwns(p, data);
    }
  }

  lemma {:induction false} BodyCollects(s: State, events: seq<Event>, toUser: bool)
    requires Ready(s, toUser) && Body(events, toUser, false)
    ensures Collected(Run(s, events), s.user, Stored(events, toUser), Original(s.user, events, toUser), toUser)
    decreases |events|
  {
    if events != [] {
      var init, last := events[..|events| - 1], events[|events| - 1];
      BodyCollects(s, init, toUser);
      var t, stored, original := Run(s, init), Stored(init, toUser), Original(s.user, init, toUser);
      assert last in events;
      if last.OnData? {
        if toUser {
          UserStep(t, s.user, stored, last.payload);
        } else {
          OutputStep(t, s.user, stored, original, last.payload, last.block);
        }
      }
    }
  }

  lemma {:induction false} StoredAtMost(events: seq<Event>, toUser: bool)
    ensures |Stored(events, toUser)| <= |Payload(events)|
    ensures NothingRefused(events, toUser) <==> |Stored(events, toUser)| == |Payload(events)|
    ensures NothingRefused(events, toUser) ==> Stored(events, toUser) == Payload(events)
    decreases |events|
  {
    if events != [] {
      StoredAtMost(events[..|events| - 1], toUser);
    }
  }

  /** A response that is not chunked, however it is split into events. Unless the
      stored payload does not fit the destination, which is then a fault, the
      destination holds it in place of its first bytes and has the rest as it was
      before the response; `output_len` is its length. Nothing else changes: not the
      user's memory when the buffer is an own one, and no buffer is made when it is
      not. It is the whole response if and only if no payload but an empty one met
      a failed allocation. */
  lemma Accumulation(s: State, events: seq<Event>, toUser: bool)
    requires Ready(s, toUser) && Body(events, toUser, false)
    ensures var t, stored := Run(s, events), Stored(events, toUser);
      && (match Original(s.user, events, toUser)
          case None => t.output.None? && stored == [] && !t.heap.fault
          case Some(original) =>
            && t.len == |stored|
            && (!t.heap.fault <==> |stored| <= |original|)
            && (!t.heap.fault ==> Destination(t, toUser) == stored + original[|stored|..]))
      && (if toUser then t.output.None? else t.user == s.user)
      && (stored == Payload(events) <==> NothingRefused(events, toUser))
  {
    BodyCollects(s, events, toUser);
    StoredAtMost(events, toUser);
  }

  /** Chunked responses leave everything alone. */
  lemma {:induction false} ChunkedIsIgnored(s: State, events: seq<Event>, toUser: bool)
    requires Body(events, toUser, true)
    ensures Run(s, events) == s
    decreases |events|
  {
    if events != [] {
      assert events[|events| - 1] in events;
      ChunkedIsIgnored(s, events[..|events| - 1], toUser);
    }
  }

  /** The copies that run past the end of their destination. */
  predicate Overruns(s: State, e: Event) {
    e.OnData? && !e.chunked &&
    if e.toUser then !Fits(s.user, s.len, e.payload)
    else var p := Prepare(s, e.block); p.output.Some? && !Fits(p.output.value.bytes, p.len, e.payload)
  }

  predicate SomeOverrun(s: State, events: seq<Event>) {
    events != [] &&
    var init := events[..|events| - 1];
    SomeOverrun(s, init) || Overruns(Run(s, init), events[|events| - 1])
  }

  lemma ResetOwns(s: State)
    requires Owns(s)
    ensures Owns(Reset(s)) && Reset(s).heap.fault == s.heap.fault
  {
    if s.output.Some? {
      FreeSound(s.heap, s.output.value.block);
      assert Free(s.heap, s.output.value.block).live.Keys == {};
    }
  }

  lemma StepOwns(s: State, e: Event)
    requires Owns(s)
    ensures Owns(Next(s, e)) && (Next(s, e).heap.fault <==> s.heap.fault || Overruns(s, e))
  {
    match e
    case OnData(payload, chunked, toUser, block) =>
      var p := Prepare(s, block);
      PrepareOwns(s, block);
      if p.output.Some? { CopyOwns(p, payload); }
    case OnFinish => ResetOwns(s);
    case OnDisconnected => ResetOwns(s);
    case OtherEvent =>
  }

  lemma {:induction false} RunOwns(s: State, events: seq<Event>)
    requires Owns(s)
    ensures Owns(Run(s, events)) && (Run(s, events).heap.fault <==> s.heap.fault || SomeOverrun(s, events))
    decreases |events|
  {
    if events != [] {
      RunOwns(s, events[..|events| - 1]);
      StepOwns(Run(s, events[..|events| - 1]), events[|events| - 1]);
    }
  }

  /** Ownership, over any events at all and however the allocations turn out: the
      live blocks are exactly the one `output_buffer` points to, every block ever
      allocated is that one or was freed once, and the only fault there can be is a
      copy past the end of its destination: no block is freed twice and none is
      written after it was freed. */
  lemma Ownership(user: seq<bv8>, events: seq<Event>)
    ensures var s := Run(Boot(user), events);
      && s.heap.live.Keys == (if s.output.Some? then {s.output.value.block} else {})
      && s.heap.total == s.heap.freed + |s.heap.live|
      && (s.heap.fault <==> SomeOverrun(Boot(user), events))
  {
    RunOwns(Boot(user), events);
  }

  /** Finishing or disconnecting puts both statics back and leaves no block, after
      any events at all. */
  lemma EndsAtRest(user: seq<bv8>, events: seq<Event>, end: Event)
    requires end.OnFinish? || end.OnDisconnected?
    ensures var s := Run(Boot(user), events + [end]); AtRest(s) && s.heap.live == map[]
  {
    assert (events + [end])[..|events|] == events;
    RunOwns(Boot(user), events + [end]);
  }

  /** A response whose first allocation fails and whose second succeeds: the buffer
      holds the second half only, and nothing reports the loss. */
  lemma PartialResponse(first: bv8, second: bv8, junk: bv8)
    ensures var events :=
        [OnData([first], false, false, None), OnData([second], false, false, Some([junk, junk]))];
      var s := Run(Boot([]), events);
      && Payload(events) == [first, second]
      && !s.heap.fault && s.len == 1 && Destination(s, false) == [second, junk]
      && !NothingRefused(events, false)
  {
    var e, f := OnData([first], false, false, None), OnData([second], false, false, Some([junk, junk]));
    assert [e, f][..1] == [e] && [e][..0] == [];
    assert Run(Boot([]), [e]) == Boot([]);
    assert Payload([e]) == [first];
    assert FirstBlock([e][..0]) == None && FirstBlock([e]) == None;
    assert !NothingRefused([e], false);
    assert Run(Boot([]), [e, f]) == Next(Boot([]), f);
    assert Blit([junk, junk], 0, [second]) == [second, junk];
  }

  /** The handler and its static variables. */
  class Handler {
    var outputBuffer: array?<bv8>
    var outputLen: nat
    ghost var heap: Heap
    ghost var block: nat

    ghost function Abs(user: array?<bv8>): State
      reads this, outputBuffer, user
    {
      State(heap, if outputBuffer == null then None else Some(Buffer(block, outputBuffer[..])), outputLen,
            if user == null then [] else user[..])
    }

    constructor ()
      ensures outputBuffer == null && Abs(null) == Boot([])
    {
      outputBuffer, outputLen, heap, block := null, 0, Empty(), 0;
    }

    static method MemCopy(dst: array<bv8>, at: nat, data: seq<bv8>)
      requires Fits(dst[..], at, data)
      modifies dst
      ensures dst[..] == Blit(old(dst[..]), at, data)
      ensures forall k | 0 <= k < |data| :: dst[at + k] == data[k]
      ensures forall i | 0 <= i < dst.Length && !(at <= i < at + |data|) :: dst[i] == old(dst[i])
    {
      ghost var was := dst[..];
      forall i | 0 <= i < |data| {
        dst[at + i] := data[i];
      }
      assert dst[..at] == was[..at] && dst[at..at + |data|] == data && dst[at + |data|..] == was[at + |data|..];
    }

    /** A data event. The client has to leave room: the handler does not check. */
    method Data(payload: seq<bv8>, chunked: bool, user: array?<bv8>, newBlock: array?<bv8>) returns (ok: bool)
      requires Owns(Abs(user))
      requires outputBuffer == null || (outputBuffer != user && outputBuffer != newBlock)
      requires user == null || user != newBlock
      requires !chunked && user != null ==> Fits(user[..], outputLen, payload)
      requires !chunked && user == null && outputBuffer != null ==> Fits(outputBuffer[..], outputLen, payload)
      requires !chunked && user == null && outputBuffer == null && newBlock != null ==> Fits(newBlock[..], 0, payload)
      modifies this, outputBuffer, user, newBlock
      ensures Abs(user) == Next(old(Abs(user)), OnData(payload, chunked, user != null,
                                 if newBlock == null then None else Some(old(newBlock[..]))))
      ensures ok <==> chunked || user != null || outputBuffer != null
      ensures outputBuffer == old(outputBuffer) || outputBuffer == newBlock
    {
      if !chunked {
        if user != null {
          MemCopy(user, outputLen, payload);
        } else {
          if outputBuffer == null {
            outputBuffer := newBlock;
            outputLen := 0;
            if outputBuffer == null {
              return false;
            }
            block, heap := heap.total, Malloc(heap, outputBuffer.Length, true).0;
          }
          MemCopy(outputBuffer, outputLen, payload);
        }
        outputLen := outputLen + |payload|;
      }
      return true;
    }

    /** A finish or disconnect event. */
    method End(user: array?<bv8>)
      modifies this
      ensures Abs(user) == Next(old(Abs(user)), OnFinish)
    {
      if outputBuffer != null {
        heap := Free(heap, block);
        outputBuffer := null;
      }
      outputLen := 0;
    }
  }
}
