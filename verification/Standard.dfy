/**
 * Section 9.2.6 of the WHATWG HTML Living Standard ("Interpreting an event
 * stream") as the standard states it, with a string data buffer, and the proof
 * that sseparse's list-of-lines parser refines it.
 */
module Standard {
  import opened Bytes
  import opened Decimal
  import opened Lines
  import opened LineLaws
  import Decode
  import P = Parser

  const MESSAGE: bytes := [109, 101, 115, 115, 97, 103, 101]   // message

  // The field names, as the standard spells them.
  const EVENT: bytes := [101, 118, 101, 110, 116]
  const DATA: bytes := [100, 97, 116, 97]
  const ID: bytes := [105, 100]
  const RETRY: bytes := [114, 101, 116, 114, 121]

  /** What a listener observes when an event is dispatched. */
  datatype Dispatched = Dispatched(typ: bytes, data: bytes, lastEventId: bytes)

  datatype Buffers = Buffers(
    dispatched: seq<Dispatched>,
    times: seq<nat>,          // the reconnection time in force at each dispatch
    eventType: bytes,
    data: bytes,
    lastEventId: bytes,
    reconnectionTime: nat)

  const FRESH: Buffers := Buffers([], [], [], [], [], 0)

  /** A blank line. */
  function Fire(b: Buffers): Buffers {
    if b.data == [] then
      b.(eventType := [])
    else
      var payload := if b.data[|b.data| - 1] == 10 then b.data[..|b.data| - 1] else b.data;
      var typ := if b.eventType == [] then MESSAGE else b.eventType;
      b.(dispatched := b.dispatched + [Dispatched(typ, payload, b.lastEventId)],
         times := b.times + [b.reconnectionTime],
         data := [], eventType := [])
  }

  function Process(b: Buffers, name: bytes, value: bytes): Buffers {
    if name == EVENT then b.(eventType := value)
    else if name == DATA then b.(data := b.data + value + [10])
    else if name == ID then (if 0 in value then b else b.(lastEventId := value))
    else if name == RETRY then
      (if AllDigits(value) then b.(reconnectionTime := DigitsValue(value)) else b)
    else b
  }

  function Line(b: Buffers, line: bytes): Buffers {
    if line == [] then Fire(b)
    else if line[0] == 58 then b
    else Process(b, P.ParseField(line).0, P.ParseField(line).1)
  }

  function Interpret(b: Buffers, lines: seq<bytes>): Buffers
    decreases |lines|
  {
    if lines == [] then b else Interpret(Line(b, lines[0]), lines[1..])
  }

  // ------------------------------------------------------------ refinement

  /** The payload, default type and ID that a decoded event stands for. */
  function Observe(e: P.Event): Dispatched {
    Dispatched(if e.typ == [] then MESSAGE else e.typ, JoinLines(e.dataLines), e.id)
  }

  function ObserveAll(es: seq<P.Event>): (r: seq<Dispatched>)
    ensures |r| == |es|
  {
    if es == [] then [] else ObserveAll(es[..|es| - 1]) + [Observe(es[|es| - 1])]
  }

  function Times(es: seq<P.Event>): (r: seq<nat>)
    ensures |r| == |es|
  {
    if es == [] then [] else Times(es[..|es| - 1]) + [es[|es| - 1].retry as nat]
  }

  /** The standard's data buffer for a list of data lines: each line followed by LF. */
  function DataBuffer(lines: seq<bytes>): bytes {
    if lines == [] then [] else DataBuffer(lines[..|lines| - 1]) + lines[|lines| - 1] + [LF]
  }

  /** Everything but the reconnection time. */
  ghost predicate Simulates(st: P.State, b: Buffers) {
    && ObserveAll(st.events) == b.dispatched
    && st.typ == b.eventType
    && DataBuffer(st.dataLines) == b.data
    && st.lastID == b.lastEventId
  }

  ghost predicate SameTimes(st: P.State, b: Buffers) {
    && Times(st.events) == b.times
    && st.retry == b.reconnectionTime
  }

  lemma {:induction false} JoinSnoc(lines: seq<bytes>, line: bytes)
    requires lines != []
    ensures JoinLines(lines + [line]) == JoinLines(lines) + [LF] + line
    decreases |lines|
  {
    if |lines| > 1 {
      JoinSnoc(lines[1..], line);
      assert (lines + [line])[1..] == lines[1..] + [line];
    } else {
      assert (lines + [line])[1..] == [line];
    }
  }

  /** Stripping one LF off the standard's buffer leaves the lines joined by LF. */
  lemma {:induction false} BufferIsJoin(lines: seq<bytes>)
    requires lines != []
    ensures DataBuffer(lines) == JoinLines(lines) + [LF]
    decreases |lines|
  {
    var n := |lines| - 1;
    if n > 0 {
      BufferIsJoin(lines[..n]);
      JoinSnoc(lines[..n], lines[n]);
      assert lines == lines[..n] + [lines[n]];
    } else {
      assert lines[..n] == [];
    }
  }

  lemma FireSimulates(st: P.State, b: Buffers)
    requires Simulates(st, b)
    ensures Simulates(P.Dispatch(st), Fire(b))
    ensures SameTimes(st, b) ==> SameTimes(P.Dispatch(st), Fire(b))
  {
    if st.dataLines != [] {
      BufferIsJoin(st.dataLines);
      var st' := P.Dispatch(st);
      assert st'.events[..|st'.events| - 1] == st.events;
    }
  }

  lemma ProcessSimulates(st: P.State, b: Buffers, name: bytes, value: bytes)
    requires Simulates(st, b)
    ensures Simulates(P.Apply(st, name, value), Process(b, name, value))
  {
    assert (st.dataLines + [value])[..|st.dataLines|] == st.dataLines;
  }

  lemma LineSimulates(st: P.State, b: Buffers, line: bytes)
    requires Simulates(st, b)
    ensures Simulates(P.Accept(st, line), Line(b, line))
  {
    if line == [] {
      FireSimulates(st, b);
    } else {
      ProcessSimulates(st, b, P.ParseField(line).0, P.ParseField(line).1);
    }
  }

  /**
   * On every sequence of lines the parser dispatches what the standard
   * dispatches: same types, payloads and last event IDs.
   */
  lemma {:induction false} ParserRefinesStandard(st: P.State, b: Buffers, lines: seq<bytes>)
    requires Simulates(st, b)
    ensures Simulates(P.Run(st, lines), Interpret(b, lines))
    decreases |lines|
  {
    if lines != [] {
      LineSimulates(st, b, lines[0]);
      ParserRefinesStandard(P.Accept(st, lines[0]), Line(b, lines[0]), lines[1..]);
    }
  }

  /** For every content, what the reader returns is what the standard dispatches. */
  lemma ConformsToStandard(content: bytes)
    ensures var stream := if [0xEF, 0xBB, 0xBF] <= content then content[3..] else content;
            ObserveAll(Decode.Events(content)) == Interpret(FRESH, StreamLines(stream)).dispatched
  {
    Decode.LeadingMarkOnly(if [0xEF, 0xBB, 0xBF] <= content then content[3..] else content);
    ParserRefinesStandard(P.INITIAL, FRESH, StreamLines(Decode.StripBOM(content)));
  }

  /** The lines may be taken from any reading of the stream by the grammar of section 9.2.5. */
  lemma ConformsByGrammar(content: bytes, lines: seq<bytes>, eols: seq<bytes>)
    requires |lines| == |eols|
    requires Derives(if [0xEF, 0xBB, 0xBF] <= content then content[3..] else content, lines, eols)
    ensures ObserveAll(Decode.Events(content)) == Interpret(FRESH, lines).dispatched
  {
    ConformsToStandard(content);
    DerivationUnique(if [0xEF, 0xBB, 0xBF] <= content then content[3..] else content, lines, eols);
  }

  // ---------------------------------------------------- reconnection times

  /** A retry field the standard honours and the parser ignores. */
  predicate IgnoredField(name: bytes, value: bytes) {
    name == RETRY && AllDigits(value) && (value == [] || DigitsValue(value) >= 0x1_0000_0000_0000_0000)
  }

  predicate IgnoredRetry(line: bytes) {
    line != [] && line[0] != COLON && IgnoredField(P.ParseField(line).0, P.ParseField(line).1)
  }

  /** The line would move the standard's reconnection time away from the parser's. */
  predicate Diverges(retry: uint, line: bytes) {
    IgnoredRetry(line) && DigitsValue(P.ParseField(line).1) != retry
  }

  ghost predicate NoIgnoredRetry(lines: seq<bytes>) {
    forall k :: 0 <= k < |lines| ==> !IgnoredRetry(lines[k])
  }

  lemma ProcessKeepsTimes(st: P.State, b: Buffers, name: bytes, value: bytes)
    requires SameTimes(st, b)
    ensures SameTimes(P.Apply(st, name, value), Process(b, name, value)) <==>
            !(IgnoredField(name, value) && DigitsValue(value) != st.retry)
  {
  }

  lemma LineKeepsTimes(st: P.State, b: Buffers, line: bytes)
    requires Simulates(st, b) && SameTimes(st, b)
    ensures SameTimes(P.Accept(st, line), Line(b, line)) <==> !Diverges(st.retry, line)
  {
    if line == [] {
      FireSimulates(st, b);
    } else if line[0] != COLON {
      ProcessKeepsTimes(st, b, P.ParseField(line).0, P.ParseField(line).1);
    }
  }

  /** Without such lines the reconnection times agree as well. */
  lemma {:induction false} TimesRefineStandard(st: P.State, b: Buffers, lines: seq<bytes>)
    requires Simulates(st, b) && SameTimes(st, b)
    requires NoIgnoredRetry(lines)
    ensures SameTimes(P.Run(st, lines), Interpret(b, lines))
    decreases |lines|
  {
    if lines != [] {
      LineSimulates(st, b, lines[0]);
      LineKeepsTimes(st, b, lines[0]);
      TimesRefineStandard(P.Accept(st, lines[0]), Line(b, lines[0]), lines[1..]);
    }
  }

  /** The reported reconnection times agree after `lines`. */
  ghost predicate TimesAgree(st: P.State, b: Buffers, lines: seq<bytes>) {
    Times(P.Run(st, lines).events) == Interpret(b, lines).times
  }

  /** A data line and a blank line make a difference in the reconnection time visible. */
  lemma DivergenceShows(st: P.State, b: Buffers)
    requires Simulates(st, b) && st.retry != b.reconnectionTime && |Times(st.events)| == |b.times|
    ensures !TimesAgree(st, b, [P.DATA_FIELD, []])
  {
    var lines := [P.DATA_FIELD, []];
    assert lines[1..] == [[]] && lines[1..][1..] == [];
    assert P.ParseField(P.DATA_FIELD) == (P.DATA_FIELD, []) by {
      assert COLON !in P.DATA_FIELD;
    }
    var st1, b1 := P.Accept(st, P.DATA_FIELD), Line(b, P.DATA_FIELD);
    assert st1 == st.(dataLines := st.dataLines + [[]]);
    assert b1 == b.(data := b.data + [] + [LF]);
    var st2, b2 := P.Accept(st1, []), Line(b1, []);
    calc {
      P.Run(st, lines);
      P.Run(st1, [[]]);
      { P.RunOne(st1, []); }
      st2;
    }
    calc {
      Interpret(b, lines);
      Interpret(b1, [[]]);
      Interpret(b2, []);
      b2;
    }
    assert Times(st2.events)[|st.events|] == st.retry;
    assert b2.times[|b.times|] == b.reconnectionTime;
  }

  /**
   * The exact condition: from a state where the two agree, a line keeps every
   * reported reconnection time in agreement, whatever honoured lines follow,
   * if and only if it is not an ignored retry with a different value.
   */
  lemma TimesAgreeIff(st: P.State, b: Buffers, line: bytes)
    requires Simulates(st, b) && SameTimes(st, b)
    ensures (forall tail :: NoIgnoredRetry(tail) ==> TimesAgree(P.Accept(st, line), Line(b, line), tail))
            <==> !Diverges(st.retry, line)
  {
    var st1, b1 := P.Accept(st, line), Line(b, line);
    LineSimulates(st, b, line);
    LineKeepsTimes(st, b, line);
    if Diverges(st.retry, line) {
      var tail := [P.DATA_FIELD, []];
      assert NoIgnoredRetry(tail) by {
        assert COLON !in P.DATA_FIELD;
      }
      DivergenceShows(st1, b1);
    } else {
      forall tail | NoIgnoredRetry(tail)
        ensures TimesAgree(st1, b1, tail)
      {
        TimesRefineStandard(st1, b1, tail);
      }
    }
  }

  /** A stream that sets an interval, then sends an empty value, then an event. */
  function ResetStream(ms: uint): bytes {
    RetryLine(FormatUint(ms)) + [LF] + (RetryLine([]) + [LF] + (P.DATA_FIELD + [LF] + ([] + [LF] + [])))
  }

  function RetryLine(value: bytes): bytes {
    P.RETRY_FIELD + [COLON] + value
  }

  lemma ReadLine(st: P.State, b: Buffers, line: bytes, rest: bytes)
    requires BreakFree(line)
    ensures P.Run(st, StreamLines(line + [LF] + rest)) == P.Run(P.Accept(st, line), StreamLines(rest))
    ensures Interpret(b, StreamLines(line + [LF] + rest)) == Interpret(Line(b, line), StreamLines(rest))
  {
    PeelLF(line, rest);
    assert ([line] + StreamLines(rest))[1..] == StreamLines(rest);
  }

  lemma ReadRetry(st: P.State, b: Buffers, value: bytes)
    requires AllDigits(value)
    ensures BreakFree(RetryLine(value))
    ensures P.Accept(st, RetryLine(value)) == P.Apply(st, P.RETRY_FIELD, value)
    ensures Line(b, RetryLine(value)) == b.(reconnectionTime := DigitsValue(value))
  {
    var line := RetryLine(value);
    DigitsBreakFree(value);
    P.IndexOfAfter(P.RETRY_FIELD, COLON, value);
    assert line[..5] == P.RETRY_FIELD && line[6..] == value;
  }

  /** An empty data line and a blank line dispatch an event that shows the interval. */
  lemma ReadEmptyEvent(retry: uint, time: nat)
    ensures P.Run(P.INITIAL.(retry := retry), StreamLines(P.DATA_FIELD + [LF] + ([] + [LF] + []))).events
            == [P.Event([], [[]], [], retry)]
    ensures Interpret(FRESH.(reconnectionTime := time), StreamLines(P.DATA_FIELD + [LF] + ([] + [LF] + []))).times == [time]
  {
    var st, b := P.INITIAL.(retry := retry), FRESH.(reconnectionTime := time);
    assert P.ParseField(P.DATA_FIELD) == (P.DATA_FIELD, []) by {
      assert COLON !in P.DATA_FIELD;
    }
    var st', b' := st.(dataLines := [[]]), b.(data := [LF]);
    assert P.Accept(st, P.DATA_FIELD) == st' && Line(b, P.DATA_FIELD) == b';
    ReadLine(st, b, P.DATA_FIELD, [] + [LF] + []);
    ReadLine(st', b', [], []);
  }

  /**
   * The empty value makes the difference: the standard resets its time to zero,
   * the parser keeps the one it has and reports it with the next event.
   */
  lemma EmptyRetryDiverges(ms: uint)
    ensures Times(Decode.Events(ResetStream(ms))) == [ms]
    ensures Interpret(FRESH, StreamLines(Decode.StripBOM(ResetStream(ms)))).times == [0]
  {
    var event: bytes := P.DATA_FIELD + [LF] + ([] + [LF] + []);
    var wire := RetryLine([]) + [LF] + event;
    assert ResetStream(ms) == RetryLine(FormatUint(ms)) + [LF] + wire;
    assert Decode.StripBOM(ResetStream(ms)) == ResetStream(ms) by {
      assert ResetStream(ms)[0] == P.RETRY_FIELD[0];
    }
    SetInterval(ms, wire);
    ReadRetry(P.INITIAL.(retry := ms), FRESH.(reconnectionTime := ms), []);
    ReadLine(P.INITIAL.(retry := ms), FRESH.(reconnectionTime := ms), RetryLine([]), event);
    ReadEmptyEvent(ms, 0);
  }

  lemma SetInterval(ms: uint, rest: bytes)
    ensures var wire := RetryLine(FormatUint(ms)) + [LF] + rest;
            && P.Run(P.INITIAL, StreamLines(wire)) == P.Run(P.INITIAL.(retry := ms), StreamLines(rest))
            && Interpret(FRESH, StreamLines(wire)) == Interpret(FRESH.(reconnectionTime := ms), StreamLines(rest))
  {
    ReadRetry(P.INITIAL, FRESH, FormatUint(ms));
    ReadLine(P.INITIAL, FRESH, RetryLine(FormatUint(ms)), rest);
    ParseFormatUint(ms);
    FormatUintValue(ms);
  }
}
