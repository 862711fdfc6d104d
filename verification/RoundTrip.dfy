/** Writing a stream and reading it back, whole or cut at any byte. */
module RoundTrip {
  import opened Bytes
  import opened Decimal
  import opened Lines
  import opened Writer
  import P = Parser
  import Decode

  /** One unit of output: a `WriteEvent`, `WriteHeartbeat` or `WriteRetry` call. */
  datatype Item = Sent(event: Event) | Heartbeat | Retry(ms: uint)

  /** The events a reader can be expected to get back. */
  predicate Faithful(e: Event) {
    BreakFree(e.name) && ParseEventID(e.id).Some?
  }

  predicate FaithfulItem(i: Item) {
    i.Sent? ==> Faithful(i.event)
  }

  predicate FaithfulItems(items: seq<Item>) {
    forall k :: 0 <= k < |items| ==> FaithfulItem(items[k])
  }

  function ItemBytes(i: Item): bytes {
    match i
    case Sent(e) => Frame(e)
    case Heartbeat => HeartbeatFrame()
    case Retry(ms) => RetryFrame(ms)
  }

  function Wire(items: seq<Item>): bytes {
    if items == [] then [] else ItemBytes(items[0]) + Wire(items[1..])
  }

  /** The lines of an item before its closing blank line. */
  function ItemLines(i: Item): seq<bytes> {
    match i
    case Sent(e) => FieldLines(e)
    case Heartbeat => [HEARTBEAT_LINE]
    case Retry(ms) => [FieldLine(P.RETRY_FIELD, FormatUint(ms))]
  }

  /** The ID and retry interval in force after an item. */
  function IdAfter(i: Item, lastID: bytes): bytes {
    if i.Sent? && i.event.id != [] then i.event.id else lastID
  }

  function RetryAfter(i: Item, retry: uint): uint {
    match i
    case Sent(e) => if e.retry > 0 then e.retry else retry
    case Heartbeat => retry
    case Retry(ms) => ms
  }

  /** How an event reads with the ID and interval in force once it is written. */
  function Decoded(e: Event, lastID: bytes, retry: uint): P.Event {
    P.Event(e.name, SplitLines(e.data), lastID, retry)
  }

  /** What an item dispatches, given the ID and interval in force after it. */
  function Dispatches(i: Item, lastID: bytes, retry: uint): seq<P.Event> {
    if i.Sent? then [Decoded(i.event, lastID, retry)] else []
  }

  /** What the reader owes: one event per written event, ID and interval sticky. */
  function Expected(items: seq<Item>, lastID: bytes, retry: uint): seq<P.Event> {
    if items == [] then []
    else
      var lastID', retry' := IdAfter(items[0], lastID), RetryAfter(items[0], retry);
      Dispatches(items[0], lastID', retry') + Expected(items[1..], lastID', retry')
  }

  // --------------------------------------------------- bytes back to lines

  ghost predicate PlainLines(lines: seq<bytes>) {
    forall k :: 0 <= k < |lines| ==> BreakFree(lines[k]) && lines[k] != []
  }

  lemma {:induction false} TerminateFront(lines: seq<bytes>)
    requires lines != []
    ensures Terminate(lines) == lines[0] + [LF] + Terminate(lines[1..])
  {
    TerminateConcat([lines[0]], lines[1..]);
    TerminateSnoc([], lines[0]);
    assert lines == [lines[0]] + lines[1..];
  }

  lemma TerminateBefore(line: bytes, lines: seq<bytes>, rest: bytes)
    ensures Terminate([line] + lines) + rest == line + [LF] + (Terminate(lines) + rest)
  {
    TerminateFront([line] + lines);
    assert ([line] + lines)[1..] == lines;
  }

  /** Terminated lines are read back one by one, whatever follows. */
  lemma {:induction false} ReadTerminated(lines: seq<bytes>, rest: bytes)
    requires forall k :: 0 <= k < |lines| ==> BreakFree(lines[k])
    ensures StreamLines(Terminate(lines) + rest) == lines + StreamLines(rest)
    decreases |lines|
  {
    if lines == [] {
      assert Terminate(lines) + rest == rest;
    } else {
      var line, others := lines[0], lines[1..];
      assert lines == [line] + others;
      ReadTerminated(others, rest);
      TerminateBefore(line, others, rest);
      PeelLF(line, Terminate(others) + rest);
      Regroup([line], others, StreamLines(rest));
    }
  }

  /** A proper prefix of a frame holds no blank line. */
  lemma {:induction false} CutHasNoBlank(lines: seq<bytes>, k: nat)
    requires PlainLines(lines) && k <= |Terminate(lines)|
    ensures forall j :: 0 <= j < |StreamLines(Terminate(lines)[..k])| ==> StreamLines(Terminate(lines)[..k])[j] != []
    decreases |lines|
  {
    if lines != [] {
      TerminateFront(lines);
      var n := |lines[0]|;
      var cut := Terminate(lines)[..k];
      if k <= n {
        assert cut == lines[0][..k];
        if cut != [] {
          UnterminatedLine(cut);
        }
      } else {
        var tail := Terminate(lines[1..])[..k - n - 1];
        assert cut == lines[0] + [LF] + tail;
        PeelLF(lines[0], tail);
        CutHasNoBlank(lines[1..], k - n - 1);
      }
    }
  }

  lemma FieldLineBreakFree(name: bytes, value: bytes)
    requires BreakFree(name) && BreakFree(value)
    ensures BreakFree(FieldLine(name, value))
  {
  }

  lemma FieldLinesPlain(e: Event)
    requires Faithful(e)
    ensures PlainLines(FieldLines(e))
  {
    var lines := SplitLines(e.data);
    StreamLinesBreakFree(e.data);
    forall k | 0 <= k < |lines| ensures BreakFree(DataLines(lines)[k]) {
      FieldLineBreakFree(P.DATA_FIELD, lines[k]);
    }
    FieldLineBreakFree(P.EVENT_FIELD, e.name);
    FieldLineBreakFree(P.ID_FIELD, e.id);
    DigitsBreakFree(FormatUint(e.retry));
    FieldLineBreakFree(P.RETRY_FIELD, FormatUint(e.retry));
  }

  lemma {:induction false} ItemLinesPlain(i: Item)
    requires FaithfulItem(i)
    ensures PlainLines(ItemLines(i))
  {
    match i
    case Sent(e) =>
      FieldLinesPlain(e);
    case Heartbeat =>
    case Retry(ms) =>
      DigitsBreakFree(FormatUint(ms));
      FieldLineBreakFree(P.RETRY_FIELD, FormatUint(ms));
  }

  lemma TerminateOne(line: bytes)
    ensures Terminate([line]) == line + [LF]
  {
  }

  lemma {:induction false} ItemIsLines(i: Item)
    ensures ItemBytes(i) == Terminate(ItemLines(i)) + [LF]
  {
    match i
    case Sent(e) =>
      FrameIsLines(e);
    case Heartbeat =>
      TerminateOne(HEARTBEAT_LINE);
    case Retry(ms) =>
      TerminateOne(FieldLine(P.RETRY_FIELD, FormatUint(ms)));
  }

  /** An item on the wire reads back as its lines and a blank one, whatever follows. */
  lemma ItemStream(i: Item, rest: bytes)
    requires FaithfulItem(i)
    ensures StreamLines(ItemBytes(i) + rest) == ItemLines(i) + [[]] + StreamLines(rest)
  {
    ItemIsLines(i);
    ItemLinesPlain(i);
    BlockStream(ItemLines(i), rest);
  }

  lemma BlockStream(lines: seq<bytes>, rest: bytes)
    requires PlainLines(lines)
    ensures StreamLines(Terminate(lines) + [LF] + rest) == lines + [[]] + StreamLines(rest)
  {
    TerminateSnoc(lines, []);
    assert Terminate(lines) + [] == Terminate(lines);
    ReadTerminated(lines + [[]], rest);
  }

  // -------------------------------------------------- lines back to events

  lemma {:induction false} AcceptField(st: P.State, name: bytes, value: bytes)
    requires name != [] && COLON !in name
    ensures P.Accept(st, FieldLine(name, value)) == P.Apply(st, name, value)
  {
    P.ParseFieldSpaced(name, value);
    assert FieldLine(name, value)[0] == name[0];
  }

  lemma RunOptional(st: P.State, present: bool, name: bytes, value: bytes)
    requires name != [] && COLON !in name
    ensures P.Run(st, OptionalLine(present, name, value)) == if present then P.Apply(st, name, value) else st
  {
    if present {
      AcceptField(st, name, value);
      P.RunOne(st, FieldLine(name, value));
    }
  }

  lemma AcceptData(st: P.State, line: bytes)
    ensures P.Accept(st, FieldLine(P.DATA_FIELD, line)) == st.(dataLines := st.dataLines + [line])
  {
    AcceptField(st, P.DATA_FIELD, line);
  }

  lemma {:induction false} RunDataLine(st: P.State, written: seq<bytes>, done: seq<bytes>, line: bytes)
    requires P.Run(st, written).dataLines == st.dataLines + done
    ensures P.Run(st, written + [FieldLine(P.DATA_FIELD, line)]) ==
            P.Run(st, written).(dataLines := st.dataLines + (done + [line]))
  {
    P.RunSnoc(st, written, FieldLine(P.DATA_FIELD, line));
    AcceptData(P.Run(st, written), line);
    Regroup(st.dataLines, done, [line]);
  }

  lemma {:induction false} RunData(st: P.State, lines: seq<bytes>)
    ensures P.Run(st, DataLines(lines)) == st.(dataLines := st.dataLines + lines)
    decreases |lines|
  {
    if lines == [] {
      assert st.dataLines + [] == st.dataLines;
    } else {
      var n := |lines| - 1;
      RunData(st, lines[..n]);
      InitLast(lines);
      RunDataLine(st, DataLines(lines[..n]), lines[..n], lines[n]);
    }
  }

  lemma {:induction false} RunNameAndData(st: P.State, e: Event)
    ensures P.Run(P.Run(st, OptionalLine(e.name != [], P.EVENT_FIELD, e.name)), DataLines(SplitLines(e.data))) ==
            st.(typ := if e.name == [] then st.typ else e.name, dataLines := st.dataLines + SplitLines(e.data))
  {
    RunOptional(st, e.name != [], P.EVENT_FIELD, e.name);
    RunData(if e.name == [] then st else st.(typ := e.name), SplitLines(e.data));
  }

  lemma {:induction false} RunIdAndRetry(st: P.State, e: Event)
    requires Faithful(e)
    ensures P.Run(P.Run(st, OptionalLine(e.id != [], P.ID_FIELD, e.id)),
                  OptionalLine(e.retry != 0, P.RETRY_FIELD, FormatUint(e.retry))) ==
            st.(lastID := IdAfter(Sent(e), st.lastID), retry := RetryAfter(Sent(e), st.retry))
  {
    RunOptional(st, e.id != [], P.ID_FIELD, e.id);
    RunOptional(st.(lastID := IdAfter(Sent(e), st.lastID)), e.retry != 0, P.RETRY_FIELD, FormatUint(e.retry));
    ParseFormatUint(e.retry);
  }

  /** The fields of a frame land in the parser's fields. */
  lemma RunFields(st: P.State, e: Event)
    requires Faithful(e)
    ensures P.Run(st, FieldLines(e)) ==
            st.(typ := if e.name == [] then st.typ else e.name,
                dataLines := st.dataLines + SplitLines(e.data),
                lastID := IdAfter(Sent(e), st.lastID),
                retry := RetryAfter(Sent(e), st.retry))
  {
    RunParts(st, OptionalLine(e.name != [], P.EVENT_FIELD, e.name), DataLines(SplitLines(e.data)),
             OptionalLine(e.id != [], P.ID_FIELD, e.id),
             OptionalLine(e.retry != 0, P.RETRY_FIELD, FormatUint(e.retry)));
    RunNameAndData(st, e);
    RunIdAndRetry(st.(typ := if e.name == [] then st.typ else e.name,
                      dataLines := st.dataLines + SplitLines(e.data)), e);
  }

  lemma {:induction false} RunParts(st: P.State, a: seq<bytes>, b: seq<bytes>, c: seq<bytes>, d: seq<bytes>)
    ensures P.Run(st, a + b + c + d) == P.Run(P.Run(P.Run(P.Run(st, a), b), c), d)
  {
    P.RunConcat(st, a + b + c, d);
    P.RunConcat(st, a + b, c);
    P.RunConcat(st, a, b);
  }

  /** Between frames: nothing accumulated. */
  predicate Clean(st: P.State) {
    st.typ == [] && st.dataLines == []
  }

  /** The parser's state after an item. */
  function After(st: P.State, i: Item): P.State {
    var lastID, retry := IdAfter(i, st.lastID), RetryAfter(i, st.retry);
    P.State(st.events + Dispatches(i, lastID, retry), [], [], lastID, retry)
  }

  lemma RunItem(st: P.State, i: Item)
    requires Clean(st) && FaithfulItem(i)
    ensures P.Run(st, ItemLines(i) + [[]]) == After(st, i)
  {
    P.RunSnoc(st, ItemLines(i), []);
    match i
    case Sent(e) =>
      RunFields(st, e);
      assert [] + SplitLines(e.data) == SplitLines(e.data);
    case Heartbeat =>
      P.RunOne(st, HEARTBEAT_LINE);
    case Retry(ms) =>
      AcceptField(st, P.RETRY_FIELD, FormatUint(ms));
      P.RunOne(st, FieldLine(P.RETRY_FIELD, FormatUint(ms)));
      ParseFormatUint(ms);
  }

  /** Reading an item from between frames, whatever follows it. */
  lemma ReadItem(st: P.State, i: Item, rest: bytes)
    requires Clean(st) && FaithfulItem(i)
    ensures P.Run(st, StreamLines(ItemBytes(i) + rest)) == P.Run(After(st, i), StreamLines(rest))
  {
    ItemStream(i, rest);
    P.RunConcat(st, ItemLines(i) + [[]], StreamLines(rest));
    RunItem(st, i);
  }

  lemma {:induction false} ExpectedFront(st: P.State, items: seq<Item>)
    requires items != []
    ensures var st' := After(st, items[0]);
            st'.events + Expected(items[1..], st'.lastID, st'.retry)
            == st.events + Expected(items, st.lastID, st.retry)
  {
    var st' := After(st, items[0]);
    Regroup(st.events, Dispatches(items[0], st'.lastID, st'.retry), Expected(items[1..], st'.lastID, st'.retry));
  }

  lemma {:induction false} ReadItems(st: P.State, items: seq<Item>)
    requires Clean(st) && FaithfulItems(items)
    ensures P.Run(st, StreamLines(Wire(items))).events == st.events + Expected(items, st.lastID, st.retry)
    decreases |items|
  {
    if items != [] {
      ReadItem(st, items[0], Wire(items[1..]));
      var st' := After(st, items[0]);
      ReadItems(st', items[1..]);
      ExpectedFront(st, items);
    }
  }

  lemma ItemIsAscii(i: Item)
    ensures ItemBytes(i) != [] && ItemBytes(i)[0] < 128
  {
    if i.Sent? && i.event.name == [] {
      var data := DataLines(SplitLines(i.event.data));
      TerminateFront(data);
      assert Frame(i.event)[0] == data[0][0];
    }
  }

  lemma WireHasNoBOM(wire: bytes)
    requires wire == [] || wire[0] < 128
    ensures Decode.StripBOM(wire) == wire
  {
  }

  lemma WireIsAscii(items: seq<Item>)
    ensures Wire(items) == [] || Wire(items)[0] < 128
  {
    if items != [] {
      ItemIsAscii(items[0]);
    }
  }

  /**
   * Stream round trip: any sequence of events, heartbeats and retry frames is
   * read back as one event per written event.
   */
  lemma {:induction false} StreamRoundTrip(items: seq<Item>)
    requires FaithfulItems(items)
    ensures Decode.Events(Wire(items)) == Expected(items, [], 0)
  {
    WireIsAscii(items);
    WireHasNoBOM(Wire(items));
    ReadItems(P.INITIAL, items);
  }

  // ------------------------------------------------------------- cut streams

  /** How many items lie completely within the first `k` bytes of the wire. */
  function CompleteItems(items: seq<Item>, k: nat): (m: nat)
    ensures m <= |items|
  {
    if items == [] || k < |ItemBytes(items[0])| then 0
    else 1 + CompleteItems(items[1..], k - |ItemBytes(items[0])|)
  }

  lemma {:induction false} CutItem(st: P.State, i: Item, k: nat)
    requires FaithfulItem(i) && k < |ItemBytes(i)|
    ensures P.Run(st, StreamLines(ItemBytes(i)[..k])).events == st.events
  {
    ItemIsLines(i);
    ItemLinesPlain(i);
    assert ItemBytes(i)[..k] == Terminate(ItemLines(i))[..k];
    CutHasNoBlank(ItemLines(i), k);
    P.NoBlankNoDispatch(st, StreamLines(Terminate(ItemLines(i))[..k]));
  }

  lemma WirePeel(items: seq<Item>)
    requires items != []
    ensures Wire(items) == ItemBytes(items[0]) + Wire(items[1..])
  {
  }

  lemma {:induction false} WireCut(items: seq<Item>, head: bytes, tail: bytes, k: nat)
    requires items != [] && head == ItemBytes(items[0]) && tail == Wire(items[1..]) && |head| <= k <= |Wire(items)|
    ensures k - |head| <= |tail| && Wire(items)[..k] == head + tail[..k - |head|]
  {
    WirePeel(items);
    CutBehind(head, tail, k);
  }

  lemma {:induction false} CutInFirst(st: P.State, items: seq<Item>, k: nat)
    requires items != [] && FaithfulItems(items) && k < |ItemBytes(items[0])|
    ensures k <= |Wire(items)| && P.Run(st, StreamLines(Wire(items)[..k])).events == st.events
  {
    CutItem(st, items[0], k);
    assert Wire(items)[..k] == ItemBytes(items[0])[..k];
  }

  lemma {:induction false} CutAfterFirst(st: P.State, items: seq<Item>, head: bytes, tail: bytes, k: nat)
    requires items != [] && Clean(st) && FaithfulItem(items[0])
    requires head == ItemBytes(items[0]) && tail == Wire(items[1..]) && |head| <= k <= |Wire(items)|
    ensures k - |head| <= |tail|
    ensures P.Run(st, StreamLines(Wire(items)[..k])) == P.Run(After(st, items[0]), StreamLines(tail[..k - |head|]))
  {
    WireCut(items, head, tail, k);
    ReadItem(st, items[0], tail[..k - |head|]);
  }

  lemma ExpectedTake(st: P.State, items: seq<Item>, m: nat)
    requires 0 < m <= |items|
    ensures var st' := After(st, items[0]);
            st'.events + Expected(items[1..][..m - 1], st'.lastID, st'.retry)
            == st.events + Expected(items[..m], st.lastID, st.retry)
  {
    ExpectedFront(st, items[..m]);
    assert items[..m][1..] == items[1..][..m - 1];
  }

  lemma {:induction false} ReadCutItems(st: P.State, items: seq<Item>, k: nat)
    requires Clean(st) && FaithfulItems(items) && k <= |Wire(items)|
    ensures P.Run(st, StreamLines(Wire(items)[..k])).events ==
            st.events + Expected(items[..CompleteItems(items, k)], st.lastID, st.retry)
    decreases |items|
  {
    if items != [] {
      var n := |ItemBytes(items[0])|;
      if k < n {
        CutInFirst(st, items, k);
      } else {
        CutAfterFirst(st, items, ItemBytes(items[0]), Wire(items[1..]), k);
        ReadCutItems(After(st, items[0]), items[1..], k - n);
        ExpectedTake(st, items, CompleteItems(items, k));
      }
    }
  }

  /**
   * Cut at any byte, the stream yields exactly the events whose frames arrived
   * whole: nothing of a partial frame, nothing missing before it.
   */
  lemma CutRoundTrip(items: seq<Item>, k: nat)
    requires FaithfulItems(items) && k <= |Wire(items)|
    ensures Decode.Events(Wire(items)[..k]) == Expected(items[..CompleteItems(items, k)], [], 0)
  {
    WireIsAscii(items);
    var cut := Wire(items)[..k];
    assert cut == [] || cut[0] == Wire(items)[0];
    WireHasNoBOM(cut);
    ReadCutItems(P.INITIAL, items, k);
  }

  // -------------------------------------------------- the exact condition

  ghost predicate EventWellFormed(e: P.Event) {
    BreakFree(e.typ) && ParseEventID(e.id).Some?
  }

  /** What no wire can make the parser break. */
  ghost predicate WellFormed(st: P.State) {
    && BreakFree(st.typ) && ParseEventID(st.lastID).Some?
    && forall k :: 0 <= k < |st.events| ==> EventWellFormed(st.events[k])
  }

  lemma FieldValueBreakFree(line: bytes)
    requires BreakFree(line)
    ensures BreakFree(P.ParseField(line).1)
  {
  }

  lemma ApplyWellFormed(st: P.State, name: bytes, value: bytes)
    requires WellFormed(st) && BreakFree(value)
    ensures WellFormed(P.Apply(st, name, value))
  {
  }

  lemma AcceptWellFormed(st: P.State, line: bytes)
    requires WellFormed(st) && BreakFree(line)
    ensures WellFormed(P.Accept(st, line))
  {
    if line != [] {
      FieldValueBreakFree(line);
      ApplyWellFormed(st, P.ParseField(line).0, P.ParseField(line).1);
    }
  }

  lemma {:induction false} RunWellFormed(st: P.State, lines: seq<bytes>)
    requires WellFormed(st)
    requires forall k :: 0 <= k < |lines| ==> BreakFree(lines[k])
    ensures WellFormed(P.Run(st, lines))
    decreases |lines|
  {
    if lines != [] {
      AcceptWellFormed(st, lines[0]);
      RunWellFormed(P.Accept(st, lines[0]), lines[1..]);
    }
  }

  lemma WireOne(items: seq<Item>)
    requires |items| == 1
    ensures Wire(items) == ItemBytes(items[0])
  {
  }

  lemma ExpectedOne(items: seq<Item>)
    requires |items| == 1 && items[0].Sent?
    ensures var e := items[0].event; Expected(items, [], 0) == [Decoded(e, e.id, e.retry)]
  {
  }

  lemma {:induction false} SingleRoundTrip(items: seq<Item>)
    requires |items| == 1 && items[0].Sent? && FaithfulItems(items)
    ensures var e := items[0].event; Decode.Events(ItemBytes(items[0])) == [Decoded(e, e.id, e.retry)]
  {
    WireOne(items);
    ExpectedOne(items);
    StreamRoundTrip(items);
  }

  /** No content at all decodes to an event whose name or ID breaks the rules. */
  lemma NeverDecoded(content: bytes, e: Event)
    requires !Faithful(e)
    ensures Decode.Events(content) != [Decoded(e, e.id, e.retry)]
  {
    StreamLinesBreakFree(Decode.StripBOM(content));
    RunWellFormed(P.INITIAL, StreamLines(Decode.StripBOM(content)));
    var events := Decode.Events(content);
    assert |events| == 1 ==> EventWellFormed(events[0]);
  }

  /** An event survives the wire if and only if its name and ID obey the rules. */
  lemma {:induction false} RoundTripIff(e: Event)
    ensures Decode.Events(ItemBytes(Sent(e))) == [Decoded(e, e.id, e.retry)] <==> Faithful(e)
  {
    if Faithful(e) {
      SingleRoundTrip([Sent(e)]);
    } else {
      NeverDecoded(ItemBytes(Sent(e)), e);
    }
  }
}
