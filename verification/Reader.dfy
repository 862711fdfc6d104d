/**
 * The reading pipeline of sseparse: byte-order-mark stripping, scanning into
 * lines, and the entry points, over a source that delivers its bytes in any
 * chunks it likes.
 */
module Reader {
  import opened Bytes
  import opened Options
  import opened Lines
  import opened LineLaws
  import P = Parser
  import Decode

  // --------------------------------------------------- schedules of a scanner

  /** Buffered input, end-of-input flag and the lines handed out so far. */
  datatype Scan = Scan(buf: bytes, atEOF: bool, lines: seq<bytes>)

  /** What a scanner may do next, in any order and any number of times. */
  datatype Action = Feed(chunk: bytes) | End | Split

  const IDLE: Scan := Scan([], false, [])

  /** One action. After the end of input nothing more can be fed. */
  function Act(s: Scan, a: Action): Scan {
    match a
    case Feed(chunk) => if s.atEOF then s else s.(buf := s.buf + chunk)
    case End => s.(atEOF := true)
    case Split =>
      var t := SplitToken(s.buf, s.atEOF);
      if t.More? then s else s.(buf := s.buf[t.advance..], lines := s.lines + [t.line])
  }

  function Acts(s: Scan, schedule: seq<Action>): Scan
    decreases |schedule|
  {
    if schedule == [] then s else Acts(Act(s, schedule[0]), schedule[1..])
  }

  /** All the bytes a schedule feeds before its first `End`. */
  function Fed(schedule: seq<Action>): bytes {
    if schedule == [] || schedule[0].End? then []
    else (if schedule[0].Feed? then schedule[0].chunk else []) + Fed(schedule[1..])
  }

  /** From any point on, the lines still to come are those of buffer plus input. */
  lemma {:induction false} ScheduleIndependent(s: Scan, schedule: seq<Action>)
    requires Acts(s, schedule).atEOF && Acts(s, schedule).buf == []
    ensures Acts(s, schedule).lines == s.lines + StreamLines(s.buf + if s.atEOF then [] else Fed(schedule))
    decreases |schedule|
  {
    var input := if s.atEOF then [] else Fed(schedule);
    if schedule == [] {
      assert s.buf + input == [];
    } else {
      var s' := Act(s, schedule[0]);
      ScheduleIndependent(s', schedule[1..]);
      ActStep(s, schedule);
    }
  }

  lemma {:induction false} ActStep(s: Scan, schedule: seq<Action>)
    requires schedule != []
    ensures var s' := Act(s, schedule[0]);
            s'.lines + StreamLines(s'.buf + if s'.atEOF then [] else Fed(schedule[1..]))
            == s.lines + StreamLines(s.buf + if s.atEOF then [] else Fed(schedule))
  {
    var s' := Act(s, schedule[0]);
    var rest := Fed(schedule[1..]);
    match schedule[0]
    case Feed(chunk) =>
      if !s.atEOF {
        Regroup(s.buf, chunk, rest);
      }
    case End =>
    case Split =>
      var t := SplitToken(s.buf, s.atEOF);
      if t.Token? {
        if s.atEOF {
          FinalTokenIsNextLine(s.buf);
          assert s.buf + [] == s.buf && s'.buf + [] == s'.buf;
          Regroup(s.lines, [t.line], StreamLines(s'.buf));
        } else {
          TokenIsNextLine(s.buf, rest);
          assert [] + rest == rest;
          Regroup(s.lines, [t.line], StreamLines(s'.buf + rest));
        }
      } else if !s.atEOF {
        assert [] + rest == rest;
      }
  }

  /**
   * Chunk independence: every schedule that reaches the end of its input with
   * an empty buffer has emitted the lines of the whole stream.
   */
  lemma ChunkIndependence(schedule: seq<Action>)
    requires Acts(IDLE, schedule).atEOF && Acts(IDLE, schedule).buf == []
    ensures Acts(IDLE, schedule).lines == StreamLines(Fed(schedule))
  {
    ScheduleIndependent(IDLE, schedule);
    assert [] + Fed(schedule) == Fed(schedule);
  }

  // ------------------------------------------------------- nothing held back

  /** All lines whose terminator has arrived for certain: a CR at the very end may still become a CRLF. */
  function Settled(s: bytes): seq<bytes> {
    CompleteLines(if s != [] && s[|s| - 1] == 13 then s[..|s| - 1] else s)
  }

  lemma {:induction false} UndecidedSettled(data: bytes)
    requires Undecided(data)
    ensures Settled(data) == []
  {
    var s := if data != [] && data[|data| - 1] == 13 then data[..|data| - 1] else data;
    assert BreakFree(s);
    assert s[..|s|] == s;
    BreakAtUnique(s, |s|);
  }

  lemma {:induction false} CompletePeel(s: bytes, n: nat, advance: nat)
    requires n < |s| && BreakFree(s[..n]) && IsBreak(s[n]) && advance == n + BreakLen(s, n)
    ensures CompleteLines(s) == [s[..n]] + CompleteLines(s[advance..])
  {
    BreakAtUnique(s, n);
  }

  /** Without its last byte, a CR behind the first terminator, a stream starts with the same line. */
  lemma SameFirst(s: bytes, t: bytes, n: nat, advance: nat)
    requires n < |s| && IsBreak(s[n]) && advance == n + BreakLen(s, n)
    requires s[|s| - 1] == 13 && n < |s| - 1 && t == s[..|s| - 1]
    ensures advance <= |t| && BreakLen(t, n) == BreakLen(s, n)
    ensures t[..n] == s[..n] && t[n] == s[n]
    ensures s[advance..] != [] && s[advance..][|s[advance..]| - 1] == 13
    ensures s[advance..][..|s[advance..]| - 1] == t[advance..]
  {
  }

  lemma SameLast(s: bytes, advance: nat)
    requires advance <= |s| && s != [] && s[|s| - 1] != 13
    ensures s[advance..] == [] || s[advance..][|s[advance..]| - 1] != 13
  {
  }

  lemma {:induction false} SettledPeel(s: bytes, n: nat, advance: nat)
    requires n < |s| && BreakFree(s[..n]) && IsBreak(s[n]) && advance == n + BreakLen(s, n)
    requires s[n] == CR ==> n + 1 < |s|
    ensures Settled(s) == [s[..n]] + Settled(s[advance..])
  {
    if s[|s| - 1] == 13 {
      var t := s[..|s| - 1];
      SameFirst(s, t, n, advance);
      CompletePeel(t, n, advance);
    } else {
      SameLast(s, advance);
      CompletePeel(s, n, advance);
    }
  }

  lemma {:induction false} SettledToken(data: bytes, later: bytes)
    requires SplitToken(data, false).Token?
    ensures var t := SplitToken(data, false);
            Settled(data + later) == [t.line] + Settled(data[t.advance..] + later)
  {
    var t, n, s := SplitToken(data, false), BreakAt(data), data + later;
    BreakAtFree(data);
    assert s[..n] == data[..n];
    assert BreakLen(s, n) == BreakLen(data, n);
    SettledPeel(s, n, t.advance);
    assert s[t.advance..] == data[t.advance..] + later;
  }

  /**
   * Nothing is held back: whenever the split function asks for more input, the
   * lines handed out are all those whose terminator has arrived for certain.
   */
  lemma {:induction false} PromptFrom(s: Scan, schedule: seq<Action>)
    requires !s.atEOF && forall k :: 0 <= k < |schedule| ==> !schedule[k].End?
    requires SplitToken(Acts(s, schedule).buf, false).More?
    ensures Acts(s, schedule).lines == s.lines + Settled(s.buf + Fed(schedule))
    decreases |schedule|
  {
    if schedule == [] {
      MoreIff(s.buf, false);
      UndecidedSettled(s.buf);
      assert s.buf + [] == s.buf;
    } else {
      var s', rest := Act(s, schedule[0]), Fed(schedule[1..]);
      PromptFrom(s', schedule[1..]);
      if schedule[0].Feed? {
        Regroup(s.buf, schedule[0].chunk, rest);
      } else {
        assert [] + rest == rest;
        var t := SplitToken(s.buf, false);
        if t.Token? {
          SettledToken(s.buf, rest);
          Regroup(s.lines, [t.line], Settled(s'.buf + rest));
        }
      }
    }
  }

  lemma PromptLines(schedule: seq<Action>)
    requires forall k :: 0 <= k < |schedule| ==> !schedule[k].End?
    requires SplitToken(Acts(IDLE, schedule).buf, false).More?
    ensures Acts(IDLE, schedule).lines == Settled(Fed(schedule))
  {
    PromptFrom(IDLE, schedule);
    assert [] + Fed(schedule) == Fed(schedule);
  }

  // -------------------------------------------------------------- the source

  datatype ReadError = EOF | Broken

  function Concat(chunks: seq<bytes>): bytes {
    if chunks == [] then [] else chunks[0] + Concat(chunks[1..])
  }

  /**
   * An `io.Reader`: a script of chunks (empty ones included), then `final` for
   * ever. An `eager` source reports `final` together with its last chunk.
   */
  class Source {
    var script: seq<bytes>
    const final: ReadError
    const eager: bool

    constructor (script: seq<bytes>, final: ReadError, eager: bool)
      ensures this.script == script && this.final == final && this.eager == eager
    {
      this.script := script;
      this.final := final;
      this.eager := eager;
    }

    function Content(): bytes
      reads this
    {
      Concat(script)
    }

    function Size(): nat
      reads this
    {
      |script| + |Content()|
    }

    method Read(max: nat) returns (data: bytes, err: Option<ReadError>)
      requires max > 0
      modifies this
      ensures |data| <= max
      ensures old(Content()) == data + Content()
      ensures err.Some? ==> err.value == final && Content() == []
      ensures err.None? ==> Size() < old(Size())
      ensures Size() + |data| <= old(Size())
    {
      if script == [] {
        return [], Some(final);
      }
      var head := script[0];
      if |head| <= max {
        data := head;
        script := script[1..];
        err := if eager && script == [] then Some(final) else None;
      } else {
        data := head[..max];
        script := [head[max..]] + script[1..];
        err := None;
        assert head == data + head[max..];
      }
    }
  }

  // ------------------------------------------------------ stripping the BOM

  class BomStripReader {
    const r: Source
    var pending: bytes
    var checked: bool
    var err: Option<ReadError>

    constructor (r: Source)
      ensures Valid() && this.r == r && Remaining() == Decode.StripBOM(r.Content())
    {
      this.r := r;
      pending, checked, err := [], false, None;
    }

    ghost predicate Valid()
      reads this, r
    {
      && (!checked ==> pending == [] && err.None?)
      && (err.Some? ==> err.value == r.final && r.Content() == [])
    }

    /** The bytes that the coming reads hand out. */
    ghost function Remaining(): bytes
      reads this, r
    {
      if checked then pending + r.Content() else Decode.StripBOM(r.Content())
    }

    ghost function Size(): nat
      reads this, r
    {
      |pending| + r.Size()
    }

    method Read(max: nat) returns (data: bytes, error: Option<ReadError>)
      requires Valid() && max > 0
      modifies this, r
      ensures Valid()
      ensures |data| <= max
      ensures old(Remaining()) == data + Remaining()
      ensures error.Some? ==> error.value == r.final && Remaining() == []
      ensures error.None? ==> Size() < old(Size())
    {
      if !checked {
        Probe();
      }
      data, error := Deliver(max);
    }

    method Deliver(max: nat) returns (data: bytes, error: Option<ReadError>)
      requires Valid() && checked && max > 0
      modifies this, r
      ensures Valid() && checked
      ensures |data| <= max
      ensures old(Remaining()) == data + Remaining()
      ensures error.Some? ==> error.value == r.final && Remaining() == []
      ensures error.None? ==> Size() < old(Size())
    {
      if |pending| > 0 {
        data := HandOut(max);
        return data, None;
      }
      if err.Some? {
        data, error := [], err;
        err := None;
        return;
      }
      data, error := r.Read(max);
    }

    method HandOut(max: nat) returns (data: bytes)
      requires Valid() && checked && max > 0 && |pending| > 0
      modifies this`pending
      ensures Valid() && 0 < |data| <= max
      ensures old(Remaining()) == data + Remaining()
      ensures Size() < old(Size())
    {
      var n := if max < |pending| then max else |pending|;
      data := pending[..n];
      Regroup(data, pending[n..], r.Content());
      assert pending == data + pending[n..];
      pending := pending[n..];
    }

    method Probe()
      requires Valid() && !checked
      modifies this, r
      ensures Valid() && checked
      ensures Remaining() == old(Remaining())
      ensures Size() <= old(Size())
    {
      checked := true;
      var head, e := ReadFull(3);
      pending := pending + head;
      if head == [0xEF, 0xBB, 0xBF] {
        pending := [];
      }
      err := e;
      ProbeDecides(head, r.Content());
    }

    /** `io.ReadFull`: an error counts only while fewer than `want` bytes arrived. */
    method ReadFull(want: nat) returns (head: bytes, e: Option<ReadError>)
      modifies r
      ensures |head| <= want
      ensures old(r.Content()) == head + r.Content()
      ensures e.None? ==> |head| == want
      ensures e.Some? ==> |head| < want && e.value == r.final && r.Content() == []
      ensures r.Size() + |head| <= old(r.Size())
    {
      head, e := [], None;
      while |head| < want && e.None?
        invariant |head| <= want
        invariant old(r.Content()) == head + r.Content()
        invariant e.Some? ==> e.value == r.final && r.Content() == []
        invariant r.Size() + |head| <= old(r.Size())
        decreases e.None?, r.Size()
      {
        var data: bytes;
        data, e := r.Read(want - |head|);
        Regroup(head, data, r.Content());
        head := head + data;
      }
      if |head| >= want {
        e := None;
      }
    }
  }

  lemma ProbeDecides(head: bytes, rest: bytes)
    requires |head| <= 3 && (|head| < 3 ==> rest == [])
    ensures Decode.StripBOM(head + rest) == (if head == Decode.BOM then [] else head) + rest
  {
  }

  // ------------------------------------------------------------- the scanner

  /** `bufio.Scanner` with the SSE split function; how much it reads at a time is left open. */
  class Scanner {
    const r: BomStripReader
    var buf: bytes
    var err: Option<ReadError>

    constructor (source: Source)
      ensures Valid() && fresh(r) && r.r == source
      ensures Rest() == Decode.StripBOM(source.Content())
    {
      r := new BomStripReader(source);
      buf, err := [], None;
    }

    ghost predicate Valid()
      reads this, r, r.r
    {
      && r.Valid()
      && (err.Some? ==> err.value == r.r.final && r.Remaining() == [])
    }

    /** The input not yet handed out as lines. */
    ghost function Rest(): bytes
      reads this, r, r.r
    {
      buf + r.Remaining()
    }

    method Scan() returns (line: Option<bytes>)
      requires Valid()
      modifies this, r, r.r
      ensures Valid()
      ensures StreamLines(old(Rest())) ==
              if line.None? then [] else [line.value] + StreamLines(Rest())
      ensures line.None? ==> err == Some(r.r.final) && Rest() == []
      ensures line.Some? ==> |Rest()| < |old(Rest())|
      // a line that has arrived is returned without reading on
      ensures old(!Undecided(buf)) ==> unchanged(r) && unchanged(r.r)
    {
      ghost var all := Rest();
      while true
        invariant Valid() && Rest() == all
        invariant old(!Undecided(buf)) ==> unchanged(this) && unchanged(r) && unchanged(r.r)
        decreases err.None?, r.Size()
      {
        var token := SplitSSELines(buf, err.Some?);
        if token.Token? {
          NextLine(buf, err.Some?, r.Remaining());
          Drop(token.advance);
          return Some(token.line);
        }
        if err.Some? {
          return None;
        }
        Fill();
      }
    }

    /** The buffer moves on behind a token. */
    method Drop(advance: nat)
      requires Valid() && 0 < advance <= |buf|
      modifies this`buf
      ensures Valid() && Rest() == old(buf)[advance..] + old(r.Remaining())
      ensures |Rest()| < |old(Rest())|
    {
      buf := buf[advance..];
    }

    /** One read of whatever size the buffer management picks. */
    method Fill()
      requires Valid() && err.None?
      modifies this, r, r.r
      ensures Valid() && Rest() == old(Rest())
      ensures err.None? ==> r.Size() < old(r.Size())
    {
      var room: nat :| room > 0;
      var data: bytes;
      data, err := r.Read(room);
      Regroup(buf, data, r.Remaining());
      buf := buf + data;
    }
  }

  /** A token is the next line of buffer plus remaining input. */
  lemma NextLine(buf: bytes, atEOF: bool, later: bytes)
    requires SplitToken(buf, atEOF).Token? && (atEOF ==> later == [])
    ensures var t := SplitToken(buf, atEOF);
            StreamLines(buf + later) == [t.line] + StreamLines(buf[t.advance..] + later)
  {
    if atEOF {
      assert buf + later == buf;
      var t := SplitToken(buf, atEOF);
      assert buf[t.advance..] + later == buf[t.advance..];
      FinalTokenIsNextLine(buf);
    } else {
      TokenIsNextLine(buf, later);
    }
  }

  // -------------------------------------------------------- the entry points

  datatype Outcome = Ok(events: seq<P.Event>) | Failed

  /** What the three loops share: scan a line and hand it to the parser; no event read so far changes. */
  method AcceptNext(parser: P.StreamParser, scanner: Scanner) returns (more: bool)
    requires scanner.Valid()
    modifies parser, scanner, scanner.r, scanner.r.r
    ensures scanner.Valid()
    ensures P.Run(parser.Value(), StreamLines(scanner.Rest())) == old(P.Run(parser.Value(), StreamLines(scanner.Rest())))
    ensures |old(parser.events)| <= |parser.events| <= |old(parser.events)| + 1
    ensures more ==> |scanner.Rest()| < |old(scanner.Rest())|
    ensures !more ==> scanner.err == Some(scanner.r.r.final) && scanner.Rest() == []
    ensures !more ==> parser.events == old(parser.events)
  {
    ghost var st := parser.Value();
    var line := scanner.Scan();
    if line.None? {
      return false;
    }
    ghost var rest := scanner.Rest();
    RunFront(st, line.value, StreamLines(rest));
    parser.AcceptLine(line.value);
    assert scanner.Rest() == rest;
    return true;
  }

  /** `ReadEvents`: all events of the content, whatever the chunks, or the source's failure. */
  method ReadEvents(source: Source) returns (result: Outcome)
    modifies source
    ensures result == if source.final.EOF? then Ok(Decode.Events(old(source.Content()))) else Failed
  {
    var parser := new P.StreamParser();
    var scanner := new Scanner(source);
    ghost var goal := P.Run(P.INITIAL, StreamLines(scanner.Rest()));
    while true
      invariant scanner.Valid() && scanner.r.r == source && fresh(scanner) && fresh(scanner.r) && fresh(parser)
      invariant goal == P.Run(parser.Value(), StreamLines(scanner.Rest()))
      decreases |scanner.Rest()|
    {
      var more := AcceptNext(parser, scanner);
      if !more {
        break;
      }
    }
    if scanner.err == Some(Broken) {
      return Failed;
    }
    return Ok(parser.events);
  }

  lemma RunFront(st: P.State, line: bytes, lines: seq<bytes>)
    ensures P.Run(st, [line] + lines) == P.Run(P.Accept(st, line), lines)
  {
  }

  /** The first `n` of `events`, or all of them. */
  function Take(events: seq<P.Event>, n: nat): seq<P.Event> {
    if n < |events| then events[..n] else events
  }

  /** What a bounded read owes, given all events of the content and how the source ends. */
  function FirstEvents(all: seq<P.Event>, final: ReadError, count: int): Outcome {
    if count <= 0 then Ok([])
    else if final.Broken? && all == [] then Failed
    else Ok(Take(all, count))
  }

  /** `ReadNEvents`: stops at `count`; a failure after some events counts as a clean close. */
  method ReadNEvents(source: Source, count: int) returns (result: Outcome)
    modifies source
    ensures result == FirstEvents(Decode.Events(old(source.Content())), source.final, count)
    ensures count <= 0 ==> result == Ok([])
    ensures var all := Decode.Events(old(source.Content()));
            count > 0 ==> result == if source.final.Broken? && all == [] then Failed
                                    else if count < |all| then Ok(all[..count]) else Ok(all)
  {
    if count <= 0 {
      return Ok([]);
    }
    var parser := new P.StreamParser();
    var scanner := new Scanner(source);
    ghost var goal := P.Run(P.INITIAL, StreamLines(scanner.Rest()));
    while true
      invariant scanner.Valid() && scanner.r.r == source && fresh(scanner) && fresh(scanner.r) && fresh(parser)
      invariant goal == P.Run(parser.Value(), StreamLines(scanner.Rest()))
      invariant |parser.events| < count
      decreases |scanner.Rest()|
    {
      var more := AcceptNext(parser, scanner);
      if !more {
        break;
      }
      if |parser.events| >= count {
        P.RunExtends(parser.Value(), StreamLines(scanner.Rest()));
        CountReached(parser.events, goal.events, source.final, count);
        return Ok(parser.events);
      }
    }
    assert goal == parser.Value();
    CountMissed(goal.events, source.final, count);
    if scanner.err == Some(Broken) && |parser.events| == 0 {
      return Failed;
    }
    return Ok(parser.events);
  }

  lemma CountMissed(events: seq<P.Event>, final: ReadError, count: int)
    requires |events| < count
    ensures FirstEvents(events, final, count) == if final.Broken? && events == [] then Failed else Ok(events)
  {
  }

  /** Later lines do not touch the events already dispatched. */
  lemma CountReached(events: seq<P.Event>, all: seq<P.Event>, final: ReadError, count: int)
    requires events <= all && |events| == count > 0
    ensures FirstEvents(all, final, count) == Ok(events)
  {
    assert all[..count] == events;
  }

  /** `StreamReader`: one event per call over a single scanner. */
  class StreamReader {
    const parser: P.StreamParser
    const scanner: Scanner
    var sent: nat

    constructor (source: Source)
      ensures Valid() && Source() == source && fresh(parser) && fresh(scanner) && fresh(scanner.r)
      ensures Upcoming() == Decode.Events(source.Content())
    {
      parser := new P.StreamParser();
      scanner := new Scanner(source);
      sent := 0;
    }

    ghost function Source(): Source {
      scanner.r.r
    }

    /** Between calls nothing has been parsed beyond the last event returned. */
    ghost predicate Valid()
      reads this, parser, scanner, scanner.r, scanner.r.r
    {
      scanner.Valid() && sent == |parser.events|
    }

    /** The events that the coming calls return, in order. */
    ghost function Upcoming(): seq<P.Event>
      requires Valid()
      reads this, parser, scanner, scanner.r, scanner.r.r
    {
      P.RunExtends(parser.Value(), StreamLines(scanner.Rest()));
      P.Run(parser.Value(), StreamLines(scanner.Rest())).events[sent..]
    }

    /** `Next`: the first upcoming event, or the end of the stream once none is left. */
    method Next() returns (event: Option<P.Event>, err: Option<ReadError>)
      requires Valid()
      modifies this, parser, scanner, scanner.r, scanner.r.r
      ensures Valid()
      ensures event.Some? ==> err.None? && old(Upcoming()) == [event.value] + Upcoming()
      ensures event.None? ==> err == Some(Source().final) && old(Upcoming()) == [] == Upcoming()
    {
      ghost var goal := P.Run(parser.Value(), StreamLines(scanner.Rest()));
      while sent >= |parser.events|
        invariant scanner.Valid() && sent == old(sent) && sent <= |parser.events| <= sent + 1
        invariant goal == P.Run(parser.Value(), StreamLines(scanner.Rest()))
        decreases |scanner.Rest()|
      {
        var more := AcceptNext(parser, scanner);
        if !more {
          return None, scanner.err;
        }
      }
      P.RunExtends(parser.Value(), StreamLines(scanner.Rest()));
      HeadAt(goal.events, sent);
      event, err := Some(parser.events[sent]), None;
      sent := sent + 1;
    }
  }
}
