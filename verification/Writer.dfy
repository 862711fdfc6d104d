/** The writer's side of the wire: frames, heartbeats and retry frames. */
module Writer {
  import opened Bytes
  import opened Options
  import opened Decimal
  import opened Lines
  import P = Parser

  /** An event as the application hands it to the transport. */
  datatype Event = Event(name: bytes, data: bytes, id: bytes, retry: uint)

  const HEARTBEAT_LINE: bytes := [58, 32, 104, 101, 97, 114, 116, 98, 101, 97, 116]   // : heartbeat

  /** `ParseEventID`: NUL, LF and CR are rejected, the empty string is allowed. */
  function ParseEventID(s: bytes): (r: Option<bytes>)
    ensures r.Some? <==> 13 !in s && 10 !in s && 0 !in s
    ensures r.Some? <==> BreakFree(s) && NUL !in s
    ensures r.Some? ==> r.value == s
  {
    if exists i :: 0 <= i < |s| && (s[i] == LF || s[i] == CR || s[i] == NUL) then None else Some(s)
  }

  function FieldLine(name: bytes, value: bytes): bytes {
    name + [COLON, SPACE] + value
  }

  function DataLines(lines: seq<bytes>): (r: seq<bytes>)
    ensures |r| == |lines|
    ensures forall k :: 0 <= k < |lines| ==> r[k] == FieldLine(P.DATA_FIELD, lines[k])
  {
    if lines == [] then [] else DataLines(lines[..|lines| - 1]) + [FieldLine(P.DATA_FIELD, lines[|lines| - 1])]
  }

  /** A field line that is written only when the field is set. */
  function OptionalLine(present: bool, name: bytes, value: bytes): seq<bytes> {
    if present then [FieldLine(name, value)] else []
  }

  /** The field lines of an event's frame, in the order they are written. */
  function FieldLines(e: Event): seq<bytes> {
    OptionalLine(e.name != [], P.EVENT_FIELD, e.name)
    + DataLines(SplitLines(e.data))
    + OptionalLine(e.id != [], P.ID_FIELD, e.id)
    + OptionalLine(e.retry != 0, P.RETRY_FIELD, FormatUint(e.retry))
  }

  /** Every line followed by LF. */
  function Terminate(lines: seq<bytes>): bytes {
    if lines == [] then [] else Terminate(lines[..|lines| - 1]) + lines[|lines| - 1] + [LF]
  }

  function OptionalField(present: bool, name: bytes, value: bytes): bytes {
    if present then FieldLine(name, value) + [LF] else []
  }

  /** The bytes of an event on the wire. */
  function Frame(e: Event): bytes {
    OptionalField(e.name != [], P.EVENT_FIELD, e.name)
    + Terminate(DataLines(SplitLines(e.data)))
    + OptionalField(e.id != [], P.ID_FIELD, e.id)
    + OptionalField(e.retry != 0, P.RETRY_FIELD, FormatUint(e.retry))
    + [LF]
  }

  lemma TerminateSnoc(lines: seq<bytes>, line: bytes)
    ensures Terminate(lines + [line]) == Terminate(lines) + line + [LF]
  {
  }

  lemma {:induction false} TerminateConcat(a: seq<bytes>, b: seq<bytes>)
    ensures Terminate(a + b) == Terminate(a) + Terminate(b)
    decreases |b|
  {
    if b == [] {
      assert a + b == a;
    } else {
      var init, last := b[..|b| - 1], b[|b| - 1];
      calc {
        Terminate(a + b);
        { ConcatInit(a, b); TerminateSnoc(a + init, last); }
        Terminate(a + init) + last + [LF];
        { TerminateConcat(a, init); }
        Terminate(a) + Terminate(init) + last + [LF];
        { Regroup(Terminate(a), Terminate(init), last); Regroup(Terminate(a), Terminate(init) + last, [LF]); }
        Terminate(a) + (Terminate(init) + last + [LF]);
        { InitLast(b); TerminateSnoc(init, last); }
        Terminate(a) + Terminate(b);
      }
    }
  }

  lemma TerminateOptional(present: bool, name: bytes, value: bytes)
    ensures Terminate(OptionalLine(present, name, value)) == OptionalField(present, name, value)
  {
  }

  lemma TerminateParts(a: seq<bytes>, b: seq<bytes>, c: seq<bytes>, d: seq<bytes>)
    ensures Terminate(a + b + c + d) == Terminate(a) + Terminate(b) + Terminate(c) + Terminate(d)
  {
    TerminateConcat(a, b);
    TerminateConcat(a + b, c);
    TerminateConcat(a + b + c, d);
  }

  /** A frame is its field lines, each ended by LF, and a blank line. */
  lemma FrameIsLines(e: Event)
    ensures Frame(e) == Terminate(FieldLines(e)) + [LF]
  {
    TerminateOptional(e.name != [], P.EVENT_FIELD, e.name);
    TerminateOptional(e.id != [], P.ID_FIELD, e.id);
    TerminateOptional(e.retry != 0, P.RETRY_FIELD, FormatUint(e.retry));
    TerminateParts(OptionalLine(e.name != [], P.EVENT_FIELD, e.name), DataLines(SplitLines(e.data)),
                   OptionalLine(e.id != [], P.ID_FIELD, e.id),
                   OptionalLine(e.retry != 0, P.RETRY_FIELD, FormatUint(e.retry)));
  }

  // ------------------------------------------------------ frames, byte by byte

  /** "data: " in front of every line, a newline behind it. */
  function DataText(lines: seq<bytes>): bytes {
    if lines == [] then []
    else DataText(lines[..|lines| - 1]) + [100, 97, 116, 97, 58, 32] + lines[|lines| - 1] + [10]
  }

  lemma {:induction false} DataTextIs(lines: seq<bytes>)
    ensures Terminate(DataLines(lines)) == DataText(lines)
    decreases |lines|
  {
    if lines != [] {
      var init, last := lines[..|lines| - 1], lines[|lines| - 1];
      DataTextIs(init);
      TerminateSnoc(DataLines(init), FieldLine(P.DATA_FIELD, last));
      assert Terminate(DataLines(lines)) == Terminate(DataLines(init)) + FieldLine(P.DATA_FIELD, last) + [LF];
      DataLineText(DataText(init), last);
    }
  }

  lemma DataLineText(before: bytes, line: bytes)
    ensures before + FieldLine(P.DATA_FIELD, line) + [LF] == before + [100, 97, 116, 97, 58, 32] + line + [10]
  {
  }

  lemma FieldText(present: bool, name: bytes, value: bytes, text: bytes)
    requires text == name + [58, 32]
    ensures OptionalField(present, name, value) == if present then text + value + [10] else []
  {
  }

  /** The frame, spelled out: "event: ", the data lines, "id: ", "retry: ", a newline behind each and one more. */
  lemma FrameBytes(e: Event)
    ensures Frame(e) ==
            (if e.name != [] then [101, 118, 101, 110, 116, 58, 32] + e.name + [10] else [])
            + DataText(SplitLines(e.data))
            + (if e.id != [] then [105, 100, 58, 32] + e.id + [10] else [])
            + (if e.retry != 0 then [114, 101, 116, 114, 121, 58, 32] + FormatUint(e.retry) + [10] else [])
            + [10]
  {
    FieldText(e.name != [], P.EVENT_FIELD, e.name, [101, 118, 101, 110, 116, 58, 32]);
    DataTextIs(SplitLines(e.data));
    FieldText(e.id != [], P.ID_FIELD, e.id, [105, 100, 58, 32]);
    FieldText(e.retry != 0, P.RETRY_FIELD, FormatUint(e.retry), [114, 101, 116, 114, 121, 58, 32]);
  }

  /** ": heartbeat" and a blank line; "retry: " with the interval and a blank line. */
  lemma ControlFrameBytes(ms: uint)
    ensures HeartbeatFrame() == [58, 32, 104, 101, 97, 114, 116, 98, 101, 97, 116, 10, 10]
    ensures RetryFrame(ms) == [114, 101, 116, 114, 121, 58, 32] + FormatUint(ms) + [10, 10]
  {
  }

  // ------------------------------------------------------------- the writer

  datatype WriteError = WriteFailed | ShortWrite

  /**
   * An `io.Writer`: every call may accept any number of bytes and may report an
   * error, which `broke` remembers of the last call. `Accepting` writers take
   * everything.
   */
  class Sink {
    var wire: bytes
    var broke: bool
    const accepting: bool

    constructor (accepting: bool)
      ensures wire == [] && !broke && this.accepting == accepting
    {
      this.accepting := accepting;
      wire, broke := [], false;
    }

    method Write(buf: bytes) returns (n: nat, failed: bool)
      modifies this
      ensures n <= |buf| && wire == old(wire) + buf[..n]
      ensures failed == broke
      ensures accepting ==> n == |buf| && !failed
    {
      if accepting {
        n, failed := |buf|, false;
      } else {
        n :| n <= |buf|;
        failed := *;
      }
      wire, broke := wire + buf[..n], failed;
    }
  }

  /**
   * `WriteEvent`: one `Write` of the whole frame. `accepted` is the number of
   * bytes that reached the wire; only a frame that was fully accepted, without
   * an error of the writer, is a success.
   */
  method WriteEvent(w: Sink, e: Event) returns (err: Option<WriteError>, ghost accepted: nat)
    modifies w
    ensures accepted <= |Frame(e)| && w.wire == old(w.wire) + Frame(e)[..accepted]
    ensures err.None? <==> !w.broke && accepted == |Frame(e)|
    ensures err == Some(WriteFailed) <==> w.broke
    ensures err == Some(ShortWrite) <==> !w.broke && accepted < |Frame(e)|
    ensures w.accepting ==> err.None?
  {
    var buf := BuildFrame(e);
    var n, failed := w.Write(buf);
    accepted := n;
    if failed {
      return Some(WriteFailed), accepted;
    }
    if n != |buf| {
      return Some(ShortWrite), accepted;
    }
    return None, accepted;
  }

  /** The byte appends of `WriteEvent`, field by field. */
  method BuildFrame(e: Event) returns (buf: bytes)
    ensures buf == Frame(e)
  {
    buf := [];
    if e.name != [] {
      buf := buf + [101, 118, 101, 110, 116, 58, 32];
      buf := buf + e.name;
      buf := buf + [10];
    }
    assert buf == OptionalField(e.name != [], P.EVENT_FIELD, e.name);
    buf := AppendData(buf, e.data);
    ghost var sofar := buf;
    if e.id != [] {
      buf := buf + [105, 100, 58, 32];
      buf := buf + e.id;
      buf := buf + [10];
    }
    assert buf == sofar + OptionalField(e.id != [], P.ID_FIELD, e.id);
    sofar := buf;
    if e.retry > 0 {
      buf := buf + [114, 101, 116, 114, 121, 58, 32];
      buf := buf + FormatUint(e.retry);
      buf := buf + [10];
    }
    assert buf == sofar + OptionalField(e.retry != 0, P.RETRY_FIELD, FormatUint(e.retry));
    buf := buf + [10];
  }

  lemma AppendedLine(start: bytes, lines: seq<bytes>, i: nat)
    requires i < |lines|
    ensures start + Terminate(DataLines(lines[..i])) + [100, 97, 116, 97, 58, 32] + lines[i] + [10]
            == start + Terminate(DataLines(lines[..i + 1]))
  {
    var done, line := lines[..i], lines[i];
    assert lines[..i + 1][..i] == done;
    TerminateSnoc(DataLines(done), FieldLine(P.DATA_FIELD, line));
  }

  method AppendData(start: bytes, data: bytes) returns (buf: bytes)
    ensures buf == start + Terminate(DataLines(SplitLines(data)))
  {
    buf := start;
    var lines := ForEachLine(data);
    for i := 0 to |lines|
      invariant buf == start + Terminate(DataLines(lines[..i]))
    {
      AppendedLine(start, lines, i);
      buf := buf + [100, 97, 116, 97, 58, 32];
      buf := buf + lines[i];
      buf := buf + [10];
    }
    assert lines[..|lines|] == lines;
  }

  function HeartbeatFrame(): bytes {
    HEARTBEAT_LINE + [LF, LF]
  }

  function RetryFrame(ms: uint): bytes {
    FieldLine(P.RETRY_FIELD, FormatUint(ms)) + [LF, LF]
  }

  /** `WriteHeartbeat`: the byte count of the write is not looked at. */
  method WriteHeartbeat(w: Sink) returns (failed: bool, ghost accepted: nat)
    modifies w
    ensures failed == w.broke
    ensures accepted <= |HeartbeatFrame()| && w.wire == old(w.wire) + HeartbeatFrame()[..accepted]
    ensures w.accepting ==> !failed && accepted == |HeartbeatFrame()|
  {
    var n: nat;
    n, failed := w.Write([58, 32, 104, 101, 97, 114, 116, 98, 101, 97, 116, 10, 10]);
    accepted := n;
  }

  /** `WriteRetry`: unlike an event's field, a zero interval is written too. */
  method WriteRetry(w: Sink, ms: uint) returns (failed: bool, ghost accepted: nat)
    modifies w
    ensures failed == w.broke
    ensures accepted <= |RetryFrame(ms)| && w.wire == old(w.wire) + RetryFrame(ms)[..accepted]
    ensures w.accepting ==> !failed && accepted == |RetryFrame(ms)|
  {
    var n: nat;
    var buf := [114, 101, 116, 114, 121, 58, 32] + FormatUint(ms) + [10, 10];
    assert buf == RetryFrame(ms);
    n, failed := w.Write(buf);
    accepted := n;
  }
}
