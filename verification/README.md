# go-sse: verified wire pipeline and fan-out hub

This project models the two halves of go-sse whose guarantees range over every
byte string or every interleaving, and proves them:

* **The wire.** `WriteEvent`, `WriteHeartbeat`, `WriteRetry`, `JoinLines` and
  `KeyedLines` write an event stream; sseparse reads it back from a source that
  delivers its bytes in any chunks. The reader is proved against sections 9.2.5
  (end-of-line grammar) and 9.2.6 (interpreting an event stream) of the WHATWG
  HTML Living Standard; writer and reader are proved to undo each other for every
  payload, and for every byte at which the stream is cut. On top of that sit the
  mutex-serialised `Stream`, `Replay`, the bounded `memStore`, and reconnection
  from end to end.
* **The hub.** `fanOut` is a transition system: write-locked sections are single
  steps, a broadcast sends to one channel per step under the read lock, a
  `Shutdown` polls one buffer per step, and any number of calls of every kind may
  be under way at once.

Bytes are a `newtype` below 256, `uint` is 64 bits wide, and Go's `int` is 64 bits
wide in `Atoi`. Code that updates fields or buffers in place is modelled by classes
and loops (`Parser.StreamParser`, `Reader.BomStripReader`, `Reader.Scanner`,
`Reader.StreamReader`, `Hub.FanOut`, `Store.MemStore`, `Connection.Stream`,
`Writer.BuildFrame`, `Lines.Walk`, `Keyed.KeyedLines`, `Replay.SendAll`); each is
proved against a function on values, and the theorems are about those functions.

| file | contents |
|---|---|
| `Bytes`, `Options`, `Filters`, `Decimal` | byte strings, selection, `strconv` |
| `Lines`, `LineLaws` | the grammar of lines, both splitters, joining, growing streams |
| `Parser`, `Standard`, `Decode` | `streamParser`, section 9.2.6, whole and truncated streams |
| `Writer`, `RoundTrip`, `Keyed` | frames, round trips whole and cut, keyed data lines |
| `Reader` | byte-order mark, scanner schedules, `ReadEvents`, `ReadNEvents`, `Next` |
| `Connection`, `Replay`, `Store`, `Reconnect` | one connection, replay, the ring store, exactly-once delivery |
| `Hub`, `HubRuns`, `HubDrain`, `HubOrder` | hub sections, interleavings, drains, delivery order |

## What the code decides

Where documentation and code differ, the model follows the code:

* `JoinLines` is documented as the inverse of `splitLines`; it is one only for
  non-empty lists of break-free lines with one line or a non-empty last line
  (`JoinInvertibleIff`).
* `Shutdown` is documented to wait until every buffer is empty. `NilMeansEmptyIff` is
  the exact condition, given the messages that may still be broadcast: every nil
  result leaves a subscriber's buffer empty if and only if none of those messages
  matches that subscriber. Otherwise one can slip in behind the poll, and the channel
  is closed with it inside (`NilIsNotEmpty`). For a single run, it is enough that the
  channel accepted nothing after the wait had begun (`QuiescentDrain`).
* `Replay` is documented to return the number of events replayed. If the failing
  write took the whole frame and still reported an error, the client has one event
  more (`FailedReplayAccounting`).
* The standard honours every all-digits retry value; the parser ignores empty ones
  and those of 2^64 or more (`TimesAgreeIff` is the exact condition,
  `EmptyRetryDiverges` a stream on which the reported intervals differ).
* `WriteEvent` does not validate names and IDs; `RoundTripIff` is the exact condition
  under which an event survives the wire.
* A new connection starts without an ID or a retry interval in force, so a resumed
  stream can read differently from an uninterrupted one (`UninterruptedIff`).
* Events evicted before a client comes back are lost to it. What it receives is still
  in order and without duplicates (`AtMostOnceInOrder`).
* `Close` after a cancelled `Shutdown` leaves `draining` set; no claim here says that a
  closed hub is not draining.

## Model

| member | source | states |
|---|---|---|
| `Lines.StreamLinesDerive` | sseparse/reader.go:335-374 | the reader's lines are a derivation of the stream in the grammar of section 9.2.5: break-free lines, terminators CRLF, CR or LF, a CR before LF never read alone |
| `Lines.DerivationUnique` | sseparse/reader.go:335-374 | every derivation of a stream in that grammar has these lines; the reading is unique |
| `Lines.ForEachLine` | event.go:361-393 | the writer's walk yields the reader's lines of every non-empty payload and one empty line for the empty payload |
| `Lines.Walk` | event.go:368-392 | the loop with `start` and `i` collects exactly the lines of the grammar, CRLF counted once |
| `Lines.CollectLines` | event.go:400-410 | `splitLines` with its one-line fast path gives the same lines |
| `Lines.StreamLinesBreakFree` | sseparse/reader.go:343-374 | no emitted line contains CR or LF |
| `Lines.SplitToken` | sseparse/reader.go:343-374 | a token consumes at least one and at most all buffered bytes; at end of input only an empty buffer yields none |
| `Lines.SplitSSELines` | sseparse/reader.go:343-374 | the scanning loop computes `SplitToken`; before the end it asks for more exactly when no terminator has arrived or only a CR as the last byte, at the end exactly when nothing is left |
| `Lines.MoreIff` | sseparse/reader.go:343-374 | the same of the token function, on literal CR and LF |
| `Lines.TokenStable` | sseparse/reader.go:341-374 | a token returned on a prefix is the same on every extension, at end of input or not |
| `Lines.TokenIsNextLine` | sseparse/reader.go:343-374 | a token is the next line of the whole stream, whatever bytes are still to come |
| `LineLaws.JoinAfterSplit` | event.go:267-269 | for every payload, joining its lines is the payload with CRLF and CR turned to LF and one trailing LF removed |
| `LineLaws.SplitAfterJoin` | event.go:254-269 | splitting joined break-free lines gives them back, except that one empty last line of several is lost |
| `LineLaws.JoinInvertibleIff` | event.go:254-269 | exactly which lists of lines `JoinLines` and `splitLines` carry back and forth |
| `LineLaws.CompleteLinesStable` | sseparse/reader.go:341-374 | lines whose terminator has begun to arrive are a prefix of the lines of every extension |
| `Decimal.ParseFormatUint` | event.go:196-200 | a printed retry value below 2^64 parses back to itself |
| `Decimal.AtoiFormatUint` | example/datastar/store.go:41-55 | a printed number below 2^63 is read back by `Atoi` |
| `Decimal.DigitsConcat` | sseparse/reader.go:308-315 | numerals are read in base ten, by position |
| `Decimal.LeadingZero` | sseparse/reader.go:308-315 | a leading zero does not change the value |
| `Decimal.NoLeadingZero` | event.go:196-200 | the printed form starts with a zero only for zero itself |
| `Decimal.AtoiSigned` | example/datastar/store.go:41-55 | `Atoi` reads digits with at most one sign, within 64 bits |
| `Decimal.AtoiUnreadable` | example/datastar/store.go:41-55 | an empty string, a lone sign or any other byte makes it fail |
| `Parser.ParseField` | sseparse/reader.go:445-452 | the name has no colon and ends at the first one, exactly one leading space of the value is dropped; the contract admits one answer per line |
| `Parser.StreamParser.AcceptLine` | sseparse/reader.go:263-271 | the in-place parser computes `Accept`; dispatched events are never altered and a line adds at most one |
| `Parser.StreamParser.DispatchFrame` | sseparse/reader.go:278-286 | dispatches with the sticky ID and interval if there are data lines, and resets the frame |
| `Parser.StreamParser.ApplyField` | sseparse/reader.go:289-317 | comments change nothing; event, data, id and retry fields update exactly their buffer |
| `Parser.EventField` | sseparse/reader.go:297-298 | the bytes "event: " and any value set the type |
| `Parser.DataField` | sseparse/reader.go:299-300 | the bytes "data: " and any value add a data line |
| `Parser.IdField` | sseparse/reader.go:301-307 | the bytes "id: " and any value set the ID unless there is a NUL in the value |
| `Parser.RetryField` | sseparse/reader.go:308-315 | the bytes "retry: " and a value set the interval if and only if the value is a non-empty string of digits below 2^64 |
| `Parser.OtherField` | sseparse/reader.go:289-296 | a line that starts with a colon or has any other name changes nothing |
| `Parser.RunExtends` | sseparse/reader.go:278-286 | later lines only append to the dispatched events |
| `Parser.NoBlankNoDispatch` | sseparse/reader.go:263-271 | without a blank line nothing is dispatched |
| `Standard.ParserRefinesStandard` | sseparse/reader.go:240-317 | on every sequence of lines the list-of-lines parser dispatches the types, payloads and last event IDs of section 9.2.6 with its string data buffer |
| `Standard.ConformsToStandard` | sseparse/reader.go:61-105 | for every byte content the events returned are, observed as type, payload and ID, the dispatches of sections 9.2.5 and 9.2.6 |
| `Standard.ConformsByGrammar` | sseparse/reader.go:61-105 | the same with the lines of any reading of the stream by the grammar of section 9.2.5 |
| `Standard.BufferIsJoin` | sseparse/event.go:38-42 | the standard's data buffer minus one LF is the data lines joined by LF |
| `Standard.TimesRefineStandard` | sseparse/reader.go:308-315 | reconnection times agree as well when no retry line is empty or 2^64 and above |
| `Standard.TimesAgreeIff` | sseparse/reader.go:308-315 | from an agreeing state a line keeps all later reported times in agreement if and only if it is not an ignored retry of a different value |
| `Standard.EmptyRetryDiverges` | sseparse/reader.go:308-315 | a stream that sets an interval, sends an empty retry value and then an event: the parser reports the interval with the event, the standard has zero |
| `Decode.LeadingMarkOnly` | sseparse/reader.go:23-25 | the bytes EF BB BF are removed once at the start and nothing else is |
| `Decode.TruncationMonotone` | sseparse/reader.go:92-105 | the events of any prefix of a stream, cut even inside a CRLF, a field or the byte-order mark, are a prefix of the events of the stream |
| `Reader.ChunkIndependence` | sseparse/reader.go:323-374 | every schedule of feeding, splitting and ending that drains the buffer emits the lines of the whole input |
| `Reader.PromptLines` | sseparse/reader.go:343-374 | for every schedule before the end of input: whenever more input is asked for, the lines handed out are all whose terminator has arrived, only one ended by a CR as the last byte being held back |
| `Reader.ScheduleIndependent` | sseparse/reader.go:323-374 | from any state of the scanner the lines still to come are those of buffer plus remaining input |
| `Reader.BomStripReader.Read` | sseparse/reader.go:394-414 | the bytes handed out followed by the remaining ones are the content with one complete leading mark removed, whatever the read sizes; an error comes only once everything is out |
| `Reader.BomStripReader.Probe` | sseparse/reader.go:420-439 | probing decides on the first three bytes and loses none; an error during the probe is deferred |
| `Reader.Scanner.Scan` | sseparse/reader.go:319-329 | each call returns the next line of the rest of the stream, or the end with nothing left; a line that has arrived is returned without reading on |
| `Reader.ReadEvents` | sseparse/reader.go:92-105 | for every chunking the result is the events of the content, or the failure of a broken source |
| `Reader.ReadNEvents` | sseparse/reader.go:125-150 | the first min(n, total) events of `ReadEvents`; nothing for n <= 0; a broken source fails only if it yielded no event |
| `Reader.StreamReader.Next` | sseparse/reader.go:208-225 | calls enumerate exactly the events of `ReadEvents`, then report the end; no call parses beyond the event it returns |
| `Writer.ParseEventID` | event.go:59-66 | accepts exactly the strings without NUL, LF and CR, unchanged |
| `Writer.FrameIsLines` | event.go:167-202 | a frame is its field lines, each ended by LF, and a blank line |
| `Writer.FrameBytes` | event.go:173-202 | the same on literal bytes: "event: ", "data: ", "id: ", "retry: ", in this order |
| `Writer.ControlFrameBytes` | event.go:234-252 | the literal bytes of heartbeat and retry frames |
| `Writer.BuildFrame` | event.go:173-202 | the byte appends produce the frame; empty names, IDs and zero intervals are omitted |
| `Writer.WriteEvent` | event.go:167-230 | exactly a prefix of the frame reaches the wire; success means all of it and no error of the writer, which is reported whatever was accepted; a short write is an error |
| `Writer.WriteHeartbeat` | event.go:234-243 | writes the comment frame; the accepted byte count is ignored |
| `Writer.WriteRetry` | event.go:248-252 | writes a retry frame, zero included |
| `RoundTrip.StreamRoundTrip` | event.go:167-252 | any sequence of events, heartbeats and retry frames decodes to one event per event, with its name, `splitLines` of its data, the latest non-empty ID and the interval in force |
| `RoundTrip.CutRoundTrip` | sseparse/reader.go:82-83 | cut at any byte, the stream decodes to exactly the events whose frames arrived whole |
| `RoundTrip.RoundTripIff` | event.go:167-230 | an event survives the wire if and only if its name has no CR or LF and `ParseEventID` accepts its ID |
| `RoundTrip.NeverDecoded` | sseparse/reader.go:296-307 | no content whatever decodes to an event that breaks these rules |
| `Keyed.KeyedLines` | event.go:307-336 | the loop prefixes every line of the value and joins them; no value gives no text |
| `Keyed.ComposeSplits` | event.go:267-336 | splitting joined keyed texts gives the keyed lines of all parts in order, an empty value giving one empty line, a trailing one being lost |
| `Keyed.KeyedRoundTrip` | stream.go:169-171 | written and decoded, the data lines are those keyed lines, and collecting by the text before the first space recovers the lines of each value |
| `Connection.Stream.Send` | stream.go:111-127 | a send appends the frame whether or not the stream is closed; a failed one appends a prefix |
| `Connection.Stream.Tick` | stream.go:254-272 | a tick on a closed stream writes nothing and ends the loop, otherwise it writes one heartbeat, or a prefix of one if the writer takes no more; a failed write ends the loop |
| `Connection.Stream.Close` | stream.go:205-222 | closes the stream, returns all waiting callbacks in order and leaves none waiting |
| `Connection.Stream.OnDisconnect` | stream.go:279-283 | appends the callback |
| `Connection.RunDecodes` | stream.go:111-127 | for every interleaving the client decodes the sent events in the order of the mutex |
| `Connection.OnlyEventsAfterClose` | stream.go:246-274 | whatever follows the first Close, the bytes after it are event frames only |
| `Connection.CallbacksConserved` | stream.go:205-222 | the batches taken by Closes followed by the waiting callbacks are the registrations in order |
| `Connection.CallbacksRunOnce` | stream.go:205-222 | over every run, the batches that Close calls return, in order, followed by the waiting callbacks are the registrations; after a Close none is waiting |
| `Replay.SendAll` | replay.go:48-64 | sends whole frames up to the first failure and returns how many went out |
| `Replay.Replay` | replay.go:40-65 | count, error and bytes for every answer of the store and every behaviour of the writer |
| `Replay.ReplayFiltered` | replay.go:81-135 | the same without a predicate; with one, for the answer of a store that filters, or else for exactly the events of the store on which the predicate answers yes, each once and in order, a panic counting as no match |
| `Replay.Query` | replay.go:91-116 | which of the two paths is taken, and its answer |
| `Replay.SelectMatching` | replay.go:110-115 | the fallback loop keeps exactly the events on which the predicate answers yes, in order |
| `Filters.FilterKeeps` | replay.go:110-115 | filtering keeps the elements at exactly the positions where the predicate holds, in order |
| `Replay.PushedDownIsFiltered` | replay.go:9-32 | if both queries return exactly the events after the last ID, in ascending order, the one restricted to those satisfying a predicate that does not panic, the pushed-down answer is the filtered one |
| `Replay.PushDownAgrees` | replay.go:25-32 | for a store meeting that contract both paths write the same bytes and return the same count |
| `Reconnect.RingStoreMeetsContract` | example/datastar/store.go:38-63 | `memStore` answers with exactly the retained events after the last ID, in ascending order of their numbers |
| `Replay.FailedReplayAccounting` | replay.go:38-62 | the client decodes `count` events if and only if the failing write accepted less than the whole frame, otherwise one more |
| `Replay.ReplayAccounting` | replay.go:64-64 | after a successful replay the client decodes all events |
| `Store.MemStore.Append` | example/datastar/store.go:26-36 | the contents become the last `cap` of the old contents and the new event, despite the overlapping copy |
| `Store.CopyDown` | example/datastar/store.go:33-33 | the front receives the old bytes of the tail although source and target overlap |
| `Store.RetainsLast` | example/datastar/store.go:10-11 | after any sequence of appends exactly the last min(cap, n) events are retained, in order |
| `Store.MemStore.EventsAfter` | example/datastar/store.go:38-63 | returns in order exactly the retained events with a readable number above the last ID, an unreadable last ID counting as zero |
| `Store.UnreadableIDs` | example/datastar/store.go:41-55 | events without a readable number are never returned; after an unreadable last ID all positive numbers are |
| `Reconnect.ExactlyOnce` | replay.go:34-65 | after any run of publications and connections cut at any byte, the client holds a prefix of what was published, no gap and no duplicate, as long as each connection finds what it needs retained |
| `Reconnect.ExactlyOnceFromStart` | replay.go:34-65 | in particular from the first connection on, before anything was published or received |
| `Reconnect.AtMostOnceInOrder` | replay.go:34-65 | with no assumption on what was evicted, after any run from the first connection on the received events are published ones at strictly ascending positions: none repeated, none out of order |
| `Reconnect.CaughtUpIff` | example/datastar/store.go:26-63 | an uncut connection brings the client up to date if and only if everything it missed is still retained |
| `Reconnect.ConnectionDelivers` | replay.go:34-65 | one connection delivers a prefix of replay plus live events, all of them when uncut |
| `Reconnect.RequestedID` | stream.go:305-312 | a header with NUL, LF or CR in it counts as none, any other is taken as it is |
| `Reconnect.MissedIsSuffix` | stream.go:305-312 | resuming from the ID of the last dispatched event selects the published events behind it, or those still retained |
| `Reconnect.ReplayConnects` | replay.go:40-65 | the replay of the store's answer is one of the connections of the session model |
| `Reconnect.UninterruptedIff` | sseparse/reader.go:252-258 | for any two parts of a stream, retry frames and heartbeats included, decoding the second on a new connection gives what the uninterrupted stream gives if and only if its first event depends neither on an ID nor on an interval that the first part left in force |
| `Hub.BufferSize` | fanout.go:38-44 | positive sizes are kept, all others mean the default |
| `Hub.OfferedStep` | fanout.go:288-302 | offering to one more channel extends the set of channels served, in whatever order they came |
| `Hub.FanOut.SubscribeFilter` | fanout.go:175-195 | on an open hub that is not draining the new channel is open, empty and tracked; otherwise it is closed and nothing is tracked anew; older channels are untouched |
| `Hub.FanOut.Unsubscribe` | fanout.go:199-215 | removes and closes a tracked channel, ignores any other |
| `Hub.FanOut.TrySend` | fanout.go:289-300 | a message enters if the channel has no predicate or one that answers yes, and there is room; one that finds no room is reported if the callback is set |
| `Hub.FanOut.SendAllLocked` | fanout.go:288-302 | buffers and drop log after a broadcast do not depend on the order in which the map is visited |
| `Hub.FanOut.BroadcastMany` | fanout.go:248-255 | a batch does what broadcasting its messages one by one does |
| `Hub.FanOut.CloseLocked` | fanout.go:328-335 | closes every tracked channel once and makes the map nil, leaving `draining` as it is |
| `Hub.FanOut.BeginShutdown` | fanout.go:355-369 | the snapshot lists exactly the tracked channels; `draining` is set |
| `Hub.FanOut.CountPending` | fanout.go:405-415 | a pass counts zero exactly when it saw every buffer empty |
| `Hub.FanOut.FinishShutdown` | fanout.go:383-396 | closes the channels of the snapshot that are still tracked; none is left open exactly when the snapshot covers the map |
| `HubRuns.RunKeepsInv` | fanout.go:175-397 | in every run, tracked channels are open, all others closed once, broadcasts in flight hold only tracked channels, and the tracked set stays inside every snapshot |
| `HubRuns.NeverPanics` | fanout.go:217-239 | no run sends on a closed channel or closes a channel twice |
| `HubRuns.NothingBlocks` | fanout.go:175-433 | in every reachable state a broadcast under way can go on whatever consumers do, and a waiting Shutdown can poll, pass, or else poll again and be cancelled |
| `HubRuns.CallsAreAdmitted` | fanout.go:175-433 | a call that needs the write lock can have it exactly when no broadcast is under way; broadcasts and receives need not wait |
| `HubRuns.ClosedExactlyOnce` | fanout.go:378-394 | a channel is open while tracked and closed exactly once afterwards; its buffer never exceeds the configured size |
| `HubRuns.TrackedOnlyShrinks` | fanout.go:179-184 | once any Shutdown has its snapshot the tracked set only shrinks, under any further interleaving |
| `HubRuns.ShutdownStrandsNobody` | fanout.go:383-396 | the final section of a Shutdown leaves every channel ever created closed exactly once |
| `HubRuns.UnsubscribedForGood` | fanout.go:199-215 | whatever follows, an unsubscribed channel is closed once and never tracked again |
| `HubRuns.ClosingIsFinal` | fanout.go:328-335 | after a Close or the end of a Shutdown, in every continuation nothing is ever tracked and every channel is closed once |
| `HubRuns.ShutdownOutcomes` | fanout.go:354-397 | a Shutdown of a closed hub returns nil at once; a cancelled one closes nothing and leaves the hub draining |
| `HubRuns.Conservation` | fanout.go:288-302 | over any run, received followed by buffered is, in order, what was buffered at first followed by what was accepted |
| `HubRuns.AcceptedOrLost` | fanout.go:290-300 | an offered message enters the buffer or is lost exactly when it matches, and never both |
| `HubRuns.DropsAreReported` | fanout.go:294-300 | the calls of the callback are exactly the messages lost while it was set, in order, one per subscriber that lost it |
| `HubDrain.QuiescentDrain` | fanout.go:354-433 | if a snapshot channel accepts nothing once the wait has begun and the wait succeeds, its buffer is empty and all it ever accepted was received |
| `HubDrain.BacklogOnlyShrinks` | fanout.go:403-433 | without sends the number of buffered items never grows and falls by one with each receive |
| `HubDrain.NilMeansEmptyIff` | fanout.go:337-340 | for every state in which a Shutdown begins its wait: each nil result reachable by broadcasts of the allowed messages finds a tracked subscriber's buffer empty if and only if no allowed message matches the subscriber |
| `HubDrain.NilIsNotEmpty` | fanout.go:354-433 | from every such state, if an allowed message matches, Shutdown can return nil with just that message left in the buffer |
| `HubDrain.ShutdownWaits` | fanout.go:355-369 | every Shutdown of an open hub begins in such a state, for each subscriber tracked then |
| `HubOrder.EachMessageOnceInOrder` | fanout.go:241-255 | among any other calls, a broadcast that has ended offered its batch to every channel tracked when it began, in batch order, each message exactly once, and to no other; one under way has offered a prefix |
| `HubOrder.SubscriberIsServed` | fanout.go:175-195 | over any run: after a successful Subscribe, and until it is unsubscribed or the hub closed, every broadcast that begins and ends has offered its whole batch to the channel, in order |
| `HubOrder.BatchOrder` | fanout.go:241-255 | what a subscriber accepts from a batch is a subsequence of the batch |
| `HubOrder.OrderIndependence` | fanout.go:248-255 | a batch run alone reaches, for every visiting order, the buffers and drop log of its messages broadcast one by one |

## Left out

- `bufio.Scanner` internals and the `WithMaxLineBytes` cap: how much is read at a time is left open and lines are taken to fit; the limit on consecutive empty reads is not modelled.
- UTF-8 decoding: the code works on raw bytes and so does the model.
- HTTP headers, flushing, tickers and contexts: ticks and cancellations are steps that may happen at any time.
- Error wrapping, branded IDs, JSON marshalling and `String` methods: text and types around the modelled results.
- Scheduling fairness: whether a waiting `Shutdown` ever finishes depends on its consumers and is not claimed.
- Callback bodies and re-entrancy: predicates are pure and may panic, `onDrop` is a log, disconnect callbacks are numbers.
- The example handler's replay-then-subscribe sequence: nothing in it ties replay to live delivery, and it replays nothing without a Last-Event-ID; `Reconnect` speaks of connections on which replayed and live events are written without a gap.
- sseparse's assertions, search, corpus and generator, the ssetest helpers, `Health`, `SubscriberCount` and the pass-through methods of `Broadcaster`: they would add easy members only.
