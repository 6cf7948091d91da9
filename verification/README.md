# Software UART, counting threads, BluFi sessions and HTTP responses

A Dafny model of the stateful parts of an ESP32 and Linux code base, with proofs.

* **Software UART** (`uart/sw_serial.h`). `SwSerial.dfy` has the driver as a class:
  `sw_write` turns a byte into timed pin writes, the interrupt handler samples a line,
  and a ring buffer connects the handler to the reading task. `CycleClock.dfy` has the
  busy wait on the wrapping 32-bit cycle counter. `Wire.dfy` makes the log of pin writes
  into a level for every time. On top of these stand exact timing windows (`Timing.dfy`,
  `Exact.dfy`, `BaudRate.dfy`), the round trip of whole streams (`Stream.dfy`,
  `Loopback.dfy`), the ring arithmetic (`Ring.dfy`), whole histories of the queue
  (`History.dfy`), the interleavings of handler and reader (`Concurrent.dfy`) and the drain
  loop of `app_main` (`AppMain.dfy`).
* **Counting threads** (`IPC_socket/thread.c`) in `Counting.dfy`: two threads and the joining
  `main`, one step per lock, load, store and unlock, under every schedule.
* **BluFi key negotiation** (`udp_server/main/blufi_security.c` and the connect and disconnect
  cases of `blufi_example_main.c`) in `Blufi.dfy`, over the allocator of `Memory.dfy`.
* **HTTP response collection** (`_http_event_handler` in `udp_server/main/udp_server.c`) in
  `HttpClient.dfy`, over the same allocator.

`dafny verify dfyconfig.toml` checks everything.

## How the hardware enters the model

* Time is in CPU cycles. An access to the cycle counter or to a pin completes `gap(t)` cycles
  after the access before it, where `gap` is any function with values from 1 to `g`. The
  counter reads as the time modulo 2^32. From one pin access to the next with a wait of `w`
  cycles in between it then takes `max(w, 1) + 2` cycles and at most `3 * (g - 1)` more.
* The handler is started `d0` to `d1` cycles after a falling edge that finds it idle, and is
  over 0 to `x` cycles after its last look at the line. Falling edges that come while it runs,
  up to and including its last moment, are ignored.
* A link has transmitter cells of `bt` to `bt + ht` cycles and receiver steps that take up to
  `hr` longer than their least. The windows are exact for all schedules in these ranges;
  setting `ht`, `hr`, `x` and `d1 - d0` to zero gives the ideal case.
* `malloc`, the crypto library and the scheduler are inputs that may do anything.

## What came out

* A single frame always decodes exactly when five inequalities hold (`Timing.Window`), and
  every stream is received exactly when the handler is, besides, done before the stop bit
  ends. With ideal waits and equal bit times B the first condition is `d + s < B <= d + s + e`.
* The constants of `sw_open` are said to come from an oscilloscope. The proofs say what they
  demand. At 115200 baud the handler must be entered in the second half of the start bit; with
  an immediate entry the stop check would fall into data bit 7. At the other rates one cycle of
  latency is enough, or none when 9 divides the bit time.
* `sw_open` computes `bitTime * 8` in 32 bits. The result is right if and only if the bit time
  is below 2^29 cycles; at 115200 baud it is always right.
* BluFi memory is not leaked if and only if no connect event comes while a session is held.
  There is no double free under any sequence of events.
* A data event whose buffer allocation fails is skipped, and a later event may then succeed.
  So the HTTP buffer holds the whole response if and only if no non-empty payload met a failed
  allocation.

## Model

| member | source | states |
|---|---|---|
| CInt.ElapsedSurvivesWrap | uart/sw_serial.h:79-80 | subtracting two readings of the 32-bit counter gives the elapsed time, wherever the counter wraps, if less than 2^32 cycles have passed |
| CycleClock.WaitBitTime | uart/sw_serial.h:79-80 | the busy wait ends; it lasts at least `wait` cycles (one when `wait` is 0) and less than that plus one poll gap, also when the counter wraps meanwhile |
| CycleClock.WaitThenAccess | uart/sw_serial.h:96-97 | from one pin access to the next with a wait in between: two cycles more than the wait at least, and 3(g - 1) more than that at most |
| Bits.ByteOfUnique | uart/sw_serial.h:99-107 | a byte is the one assembled from eight levels if and only if its bits are these levels, least significant first |
| Bits.ShiftIn | uart/sw_serial.h:101-106 | one turn of the receive shift register moves every bit down and puts the level on top |
| Bits.FlipTwice | uart/sw_serial.h:117 | the complements of sender and receiver in inverted mode cancel |
| Bits.FlipBits | uart/sw_serial.h:117 | inverted mode complements every bit of a byte, the other mode none |
| Bits.BitIsDigit | uart/sw_serial.h:99-107 | bit k of a byte is its binary digit of weight 2^k |
| SwSerialDriver.SampleByte | uart/sw_serial.h:99-107 | the sampling loop returns the byte whose bit i is the level at sample i, with the samples as far apart as the waits allow |
| SwSerialDriver.SendBits | uart/sw_serial.h:167-175 | the sending loop writes start bit and eight data bits, least significant first, in cells as long as the waits allow |
| SwSerialDriver.SwSerial.constructor | uart/sw_serial.h:29-43 | for any `int` size the object is usable exactly when the size is at least 1, and then holds an empty queue of capacity size - 1 with the flag down |
| SwSerialDriver.SwSerial.New | uart/sw_serial.h:29-62 | NULL exactly when one of the two allocations fails, else such an object |
| SwSerialDriver.SwSerial.Store | uart/sw_serial.h:112-123 | the byte, complemented in inverted mode, is appended, or if there is no room dropped with the flag raised |
| SwSerialDriver.SwSerial.RxHandler | uart/sw_serial.h:83-132 | on any waveform one handler run looks at the line at the prescribed distances, offers the queue the byte of the data samples exactly when the start sample is low and the stop sample high, and otherwise changes nothing |
| SwSerialDriver.SwSerial.Write | uart/sw_serial.h:153-185 | the pin writes are those of one frame: start low, eight data bits from the least significant, stop high, every cell as long as the waits allow |
| SwSerialDriver.SwSerial.EnableRx | uart/sw_serial.h:134-151 | enabling selects the negative edge, or the positive one in inverted mode, and the interrupt service's status is returned |
| SwSerialDriver.SwSerial.Open | uart/sw_serial.h:199-228 | the three timing constants are set as `TimingFor` says, a zero byte is sent at once in one frame, and the receive edge is enabled with its status returned |
| SwSerialDriver.SwSerial.Read | uart/sw_serial.h:187-196 | returns and removes the oldest byte, or returns -1 and changes nothing |
| SwSerialDriver.SwSerial.Peek | uart/sw_serial.h:252-259 | returns the oldest byte or -1 |
| SwSerialDriver.SwSerial.Any | uart/sw_serial.h:235-239 | returns the number of bytes queued |
| SwSerialDriver.SwSerial.Flush | uart/sw_serial.h:241-245 | empties the queue and lowers the flag |
| SwSerialDriver.SwSerial.Overflow | uart/sw_serial.h:247-250 | returns the overflow flag |
| ByteQueue.FrontIsNoData | uart/sw_serial.h:187-196 | -1 is returned exactly when nothing is queued; bytes come as 0 to 255 |
| ByteQueue.OfferAllToEmpty | uart/sw_serial.h:114-123 | of the bytes offered to an empty queue the first `cap` are kept in order, and the flag tells whether there were more |
| ByteQueue.OfferAllKeeps | uart/sw_serial.h:114-123 | of the bytes offered to any queue as many as there is room for are appended in order; the flag is raised exactly if there were more, and never lowered |
| Ring.NextIsSuccessor | uart/sw_serial.h:114 | the 32-bit index step goes once around the ring and never leaves it |
| Ring.FullIffNextMeetsOut | uart/sw_serial.h:114-115 | at most size - 1 bytes are ever queued, and the handler's comparison finds the queue full exactly then |
| Ring.EmptyIffIndicesMeet | uart/sw_serial.h:189 | the reader's comparison finds the queue empty exactly when it is |
| Ring.AnyIsLength | uart/sw_serial.h:235-239 | in mixed signed and unsigned 32-bit arithmetic `sw_any` is the queue length, for every size from 1 to 2^31 - 1 and all indices |
| Ring.StoreIsInvisible | uart/sw_serial.h:117 | a byte written to the free slot is not yet in the queue |
| Ring.PublishAppends | uart/sw_serial.h:118 | advancing `inPos` appends the slot's byte |
| Ring.AdvanceRemoves | uart/sw_serial.h:191-192 | advancing `outPos` removes the oldest byte, the one at `outPos` |
| Wire.LevelInCell | uart/sw_serial.h:165-179 | in a stream of frames with any gaps the line has the level of a frame's cell for the whole cell |
| Wire.CellOrder | uart/sw_serial.h:165-179 | a low start bit comes first, then the binary digits of the byte from the least significant on, then a high stop bit, each for its whole cell |
| Wire.LevelAfterLast | uart/sw_serial.h:177-179 | after the last stop bit begins the line stays high |
| Timing.SampleInCell | uart/sw_serial.h:96-107 | inside the window the start check and every data sample fall in their own cells, whatever the overshoots on both sides; the first and last samples decide for all |
| Timing.StopInCell | uart/sw_serial.h:108-110 | inside the window the stop check comes after the stop bit begins, and in the stream window before it ends |
| Timing.DecodesFrame | uart/sw_serial.h:96-117 | inside the window a run started by a frame's start bit yields the frame's byte |
| Exact.WindowIsExact | uart/sw_serial.h:96-117 | all bytes under all schedules of sender and receiver decode if and only if the five inequalities hold |
| Exact.IdealWindow | uart/sw_serial.h:96-110 | with equal bit times and ideal waits, all bytes decode if and only if d + s < B <= d + s + e |
| Exact.OutsideWindow | uart/sw_serial.h:96-117 | outside the window 0xFF, 0x00 or 0x80 is rejected or misread under some allowed schedule |
| Exact.OverlapLosesFrame | uart/sw_serial.h:83-132 | a handler run that outlasts its frame can lose the next one |
| Exact.StreamWindowIsExact | uart/sw_serial.h:83-185 | every stream is received intact under every schedule if and only if the link is in the stream window |
| Stream.RunReadsFrame | uart/sw_serial.h:83-132 | a run on the start bit of a frame decodes it and ends during its stop bit |
| Stream.StartBitTriggers | uart/sw_serial.h:139-141 | each start bit finds the handler idle and starts the next run |
| Stream.NextEdgeIsLater | uart/sw_serial.h:139-141 | falling edges between data bits never start a run |
| Stream.RoundTrip | uart/sw_serial.h:83-185 | for every byte string, every gaps, latencies and overshoots in the stream window: one run per frame, on its start bit, over before the frame ends, and the bytes delivered are those sent |
| Loopback.SendAll | uart/new1mainCswserial.c:29-39 | sending a byte string with any pauses logs its frames in order, each starting no sooner than its pause after the one before ends |
| Loopback.ServeLine | uart/sw_serial.h:134-151 | serving the falling edges of any log is a run as `Stream` has it, and the receive queue is offered what that run delivers |
| Loopback.Transfer | uart/sw_serial.h:83-185 | bytes sent by one driver are offered unchanged and in order to the queue of another on its own clock |
| BaudRate.BitTimeIsFloor | uart/sw_serial.h:202 | the bit time b of every clock and rate is the exact one rounded down: b * baud <= clock < (b + 1) * baud |
| BaudRate.OpenOverflow | uart/sw_serial.h:202-220 | the 32-bit constants equal the unbounded ones if and only if the rate is 115200 or the bit time is below 2^29 |
| BaudRate.SlowClockNeverOverflows | uart/sw_serial.h:202-220 | clocks below 2^29 Hz never overflow |
| BaudRate.Ninths | uart/sw_serial.h:212-220 | the two waits add up to the bit time, less one unless 9 divides it |
| BaudRate.NinthsLatency | uart/sw_serial.h:212-220 | the exact range of latencies at every rate but 115200 |
| BaudRate.FastLatency | uart/sw_serial.h:207-210 | the exact range of latencies at 115200, which lies in the second half of the start bit |
| BaudRate.SameRateWindow | uart/sw_serial.h:96-110 | the stream window at equal bit times, in terms of latency range, overshoots and exit time, as an equivalence |
| BaudRate.NinthsDriver | uart/sw_serial.h:212-220 | two drivers at any rate but 115200: streams are received intact if and only if three inequalities hold between latency range, access time and exit time |
| BaudRate.FastDriver | uart/sw_serial.h:207-210 | the same equivalence at 115200 |
| BaudRate.RoundedBitTime | uart/sw_serial.h:202-220 | with the constants of `sw_open` for a clock and rate, against a peer at exactly clock / baud, rounding the bit time down costs at most 8 cycles early and 9 late, for every clock and rate |
| BaudRate.DriverMeetsPeer | uart/sw_serial.h:202-220 | the same for the driver with the real lengths of its waits: latency conditions under which it receives every stream of an exact peer intact |
| BaudRate.Esp32At115200 | uart/sw_serial.h:207-210 | at 160 MHz and 115200 baud with accesses of up to 8 cycles, streams are received intact if and only if the latencies stay within 882 to 1193 cycles |
| History.Conservation | uart/sw_serial.h:110-123 | since creation or the last flush, arrived = read + queued + dropped, as multisets; the read and queued bytes are the accepted ones in order; the flag is up exactly when something was dropped |
| History.AcceptedInOrder | uart/sw_serial.h:114-123 | the accepted bytes are the arrived ones without those that met a full queue |
| History.LossIffReaderFellBehind | uart/sw_serial.h:114-123 | since the last flush a byte was lost if and only if at some point more than size - 1 bytes had arrived and were not yet read |
| History.StreamToReader | uart/sw_serial.h:83-196 | what `sw_read` has returned, then what is queued, is what was sent less the bytes that met a full queue, and all of it when the flag is down |
| Concurrent.StepSimulated | uart/sw_serial.h:114-123 | every access of handler or reader to something the other side may change or see keeps the invariant and acts on the atomic queue as its event says |
| Concurrent.Refinement | uart/sw_serial.h:114-123 | the events of every interleaving are a history of the atomic bounded FIFO |
| Concurrent.EnteredIsAnswered | uart/sw_serial.h:114-123 | the handler publishes or refuses exactly the bytes it is entered with, in order, but for the one in flight |
| Concurrent.FifoOrder | uart/sw_serial.h:187-196 | in that FIFO every accepted byte is read once and in order, or still queued |
| Concurrent.NoByteLost | uart/sw_serial.h:114-123 | in every interleaving the bytes entered are, in order, those accepted or refused and the one in flight; the bytes read, then those queued, are the accepted ones; with none refused, read, queued and in flight are those entered; the flag is up, or about to be, exactly when one was refused |
| Concurrent.StreamThroughBuffer | uart/sw_serial.h:83-196 | when the bytes entered are those a stream delivers, the interleaved reads, then the bytes queued or in flight, are the bytes sent unless one was refused |
| Concurrent.AloneIsStore | uart/sw_serial.h:114-123 | the handler's steps without interference do what `Store` does |
| Concurrent.AloneIsRead | uart/sw_serial.h:187-196 | the steps of `sw_read` without interference do what `Read` does |
| Concurrent.AnyReturnsWhatItSaw | uart/sw_serial.h:235-239 | each `sw_any` returns the queue length of the moment it loaded `inPos`, whatever arrives before it returns |
| Concurrent.PromiseKept | uart/new1mainCswserial.c:47-54 | reads return the bytes `sw_any` counted, in order |
| Concurrent.DrainIsSafe | uart/new1mainCswserial.c:47-54 | if `sw_any` returns n, the next n reads return the n oldest bytes and never -1, however many handler steps come in between |
| Concurrent.FlagAnswers | uart/sw_serial.h:247-250 | after any interleaving `sw_overflow` returns true only if a byte was refused, and false after a refusal only while the handler is just about to raise the flag |
| Concurrent.PeekTellsNextRead | uart/sw_serial.h:252-259 | what `sw_peek` returns for a byte the next `sw_read` returns, whatever happens in between; it returns -1 exactly when the queue is empty |
| AppMain.Arrivals | uart/sw_serial.h:112-123 | bytes arriving between two calls go behind what is queued, in order, complemented in inverted mode, as far as there is room |
| AppMain.PassKeeps | uart/new1mainCswserial.c:47-54 | at any point of a pass the bytes not yet read are in front and the next read returns the first of them; with room for all that comes, exactly that is behind them |
| AppMain.DrainOnce | uart/new1mainCswserial.c:47-54 | one pass of the drain loop prints exactly what was queued when `sw_any` was called; if there is room for all that arrives meanwhile, exactly that is queued afterwards, in order, with the flag as it was; the capacity always stays and a raised flag stays raised |
| Counting.OwnTurn | IPC_socket/thread.c:213-218 | each step of a thread keeps its invariant, adds what it counts and uses up one step |
| Counting.OtherTurn | IPC_socket/thread.c:230-235 | a step of one thread leaves what the other relies on intact |
| Counting.EverySchedule | IPC_socket/thread.c:200-240 | under any schedule at most one thread is between lock and unlock, the counter stays between start and start + n + m, nobody of the two threads and their joiner can step exactly when start + n + m has been reported, and that takes exactly 6(n + m) + 5 steps |
| Counting.Progress | IPC_socket/thread.c:311-335 | until `main` has reported somebody can step |
| Counting.FinishesIffBoundsFit | IPC_socket/thread.c:228-235 | the program can finish if and only if both bounds are below the number of values of their loop counters |
| Counting.Process.Step | IPC_socket/thread.c:213-235 | one step of the process on its variables |
| Counting.Process.RunToEnd | IPC_socket/thread.c:311-335 | a run under any scheduler ends with the right report |
| Counting.RunProgram | IPC_socket/thread.c:200-240 | the two counting threads end and, after the joins of these two, 131080 = 10 + 2 * 65535 is reported, whatever the scheduler does |
| Memory.FreeSound | udp_server/main/blufi_security.c:80-83 | freeing a live block keeps every block live or freed once |
| Blufi.StepKeepsInv | udp_server/main/blufi_security.c:66-144 | every event keeps the ownership invariant and leaks only what a connect event forgets |
| Blufi.Ownership | udp_server/main/blufi_security.c:66-218 | over any events and call results: no double free, no use after free, no write past a block, a live session implies a connection, and nothing leaks if and only if no connect comes while a session is held |
| Blufi.ReconnectLeaks | udp_server/main/blufi_security.c:186-200 | two connect events in a row leave the first session's block live and unreachable |
| Blufi.AlternatingNeverReconnects | udp_server/main/blufi_example_main.c:212-223 | alternating connects and disconnects never forget a session |
| Blufi.DisconnectFreesAll | udp_server/main/blufi_security.c:202-218 | with alternating sessions a disconnect leaves no block allocated |
| Blufi.KeyNeedsLength | udp_server/main/blufi_security.c:78-136 | in any stretch of a history key settings need as many accepted length messages, counting one that is still unconsumed at the start |
| Blufi.KeysPerSession | udp_server/main/blufi_security.c:78-136 | from any connect event on, keys set never outnumber accepted length messages |
| Blufi.HistoryTells | udp_server/main/blufi_example_main.c:212-223 | after any events the device is connected if and only if the last connect or disconnect event is a connect, has a session if and only if that connect's allocation succeeded, and holds a parameter buffer if and only if a length message was accepted since and not yet used up |
| Blufi.Outcomes | udp_server/main/blufi_security.c:66-144 | after any events, exactly when each of the nine outcomes occurs; the key is set if and only if a buffer is awaited and reading, making public and hashing all succeed |
| Blufi.LengthGoverns | udp_server/main/blufi_security.c:78-99 | an accepted length message fixes the size of the live buffer, with the message's second byte as its high and third as its low byte, over all messages up to the data message, which has exactly that many of its bytes copied and parsed |
| Blufi.Device.NegotiateData | udp_server/main/blufi_security.c:66-144 | the message handler's new state, reported outcome and the bytes handed to the parser, on every path |
| Blufi.Device.SecurityInit | udp_server/main/blufi_security.c:186-200 | a new session's state, or none when the allocation fails |
| Blufi.Device.SecurityDeinit | udp_server/main/blufi_security.c:202-218 | the session and its parameter buffer are released |
| Blufi.Device.EventCallback | udp_server/main/blufi_example_main.c:212-223 | the connect and disconnect cases |
| HttpClient.BlitByIndex | udp_server/main/udp_server.c:675-685 | a copy that fits puts its data at the offset and leaves every byte before and behind as it was |
| HttpClient.Accumulation | udp_server/main/udp_server.c:666-690 | `output_len` is the length of the payloads that found a buffer; copies stay inside exactly when these fit, and then the destination is their concatenation followed by what it held there at the start; memory of the user is untouched when the buffer is an own one; it is the whole response exactly when no non-empty payload met a failed allocation |
| HttpClient.ChunkedIsIgnored | udp_server/main/udp_server.c:672 | chunked responses change nothing |
| HttpClient.PartialResponse | udp_server/main/udp_server.c:677-690 | a response whose first allocation fails and whose second succeeds is held only in part |
| HttpClient.EndsAtRest | udp_server/main/udp_server.c:691-714 | after any events at all, finish and disconnect put both statics back and leave no block |
| HttpClient.Ownership | udp_server/main/udp_server.c:649-722 | over any events the live blocks are exactly the one in use, every other block allocated was freed once, and the only possible fault is a copy past the end of its destination: no double free and no use after free |
| HttpClient.Handler.MemCopy | udp_server/main/udp_server.c:685 | a copy puts its data at the offset and leaves every byte before and behind as it was |
| HttpClient.Handler.Data | udp_server/main/udp_server.c:666-690 | the data case on the two statics and the buffers |
| HttpClient.Handler.End | udp_server/main/udp_server.c:691-714 | the finish and disconnect cases |

## Left out

- GPIO, interrupt-service and critical-section calls: the pin is a level over time and the handler runs as described above.
- Inverted mode on the line: start and stop bits and the idle level do not match the trigger edge there, so the stream theorems are for `invert == false`; the single-frame theorems hold for both settings.
- `sw_del`: an object is not taken apart.
- `sw_flush` against a handler that is half way through: its two stores are not atomic; it is modelled between handler runs only.
- Concurrent.Refinement: the steps are on values, not on the `SwSerial` object, because they cut its methods apart; `AloneIsStore` and `AloneIsRead` say what they add up to. Memory ordering between cores is taken as sequential.
- Counting.EverySchedule: the steps are on values; `Counting.Process` does them in place, one at a time. Mutex calls are taken to succeed. The other threads that `main` joins before it reports, one of which the parent never creates, the signal handler and the fork are not part of the model.
- Blufi.Ownership: a message is taken to hold as many bytes as are copied from it; the sizes of the key arrays are not modelled, and the crypto calls only succeed or fail.
- HttpClient.Handler.Data: the source copies without checking for room, which C leaves undefined when there is none, so room is a precondition of the in-place method; `HttpClient.Accumulation` and `HttpClient.Ownership` are over all events and say what holds without it.
- Other BluFi events, Wi-Fi and UDP set-up, sockets, message queues, drivers, timer and UART examples: input and output without state of their own.
