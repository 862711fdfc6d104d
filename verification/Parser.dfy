/** The reader's event-stream interpreter (sseparse's `streamParser`). */
module Parser {
  import opened Bytes
  import opened Options
  import opened Decimal

  const EVENT_FIELD: bytes := [101, 118, 101, 110, 116]   // event
  const DATA_FIELD: bytes := [100, 97, 116, 97]           // data
  const ID_FIELD: bytes := [105, 100]                     // id
  const RETRY_FIELD: bytes := [114, 101, 116, 114, 121]   // retry

  /** An event as decoded from the wire. */
  datatype Event = Event(typ: bytes, dataLines: seq<bytes>, id: bytes, retry: uint)

  /** The parser's fields as one value. */
  datatype State = State(
    events: seq<Event>,
    typ: bytes,
    dataLines: seq<bytes>,
    lastID: bytes,
    retry: uint)

  const INITIAL: State := State([], [], [], [], 0)

  /** Index of the first occurrence of `b` at or after `i`, or the length when there is none. */
  function IndexFrom(s: bytes, b: byte, i: nat): (n: nat)
    requires i <= |s|
    ensures i <= n <= |s|
    ensures forall k :: i <= k < n ==> s[k] != b
    ensures n < |s| ==> s[n] == b
    decreases |s| - i
  {
    if i == |s| || s[i] == b then i else IndexFrom(s, b, i + 1)
  }

  function IndexOf(s: bytes, b: byte): nat {
    IndexFrom(s, b, 0)
  }

  /**
   * `parseSSEField`: the contract admits exactly one answer for every line. The
   * name ends at the first colon and at most one space after it is dropped.
   */
  function ParseField(line: bytes): (r: (bytes, bytes))
    ensures 58 !in r.0
    ensures
      if 58 !in line then
        r == (line, [])
      else if r.0 + [58, 32] <= line then
        line == r.0 + [58, 32] + r.1
      else
        line == r.0 + [58] + r.1
  {
    var n := IndexOf(line, COLON);
    if n == |line| then
      assert line[..n] == line;
      (line, [])
    else
      var rest := line[n + 1..];
      var value := if rest != [] && rest[0] == SPACE then rest[1..] else rest;
      assert line == line[..n] + [COLON] + rest;
      (line[..n], value)
  }

  lemma IndexOfAfter(name: bytes, b: byte, rest: bytes)
    requires b !in name
    ensures IndexOf(name + [b] + rest, b) == |name|
  {
    var s := name + [b] + rest;
    assert s[|name|] == b;
    assert forall i :: 0 <= i < |name| ==> s[i] == name[i];
  }

  /** What the writer puts after a field name comes back unchanged. */
  lemma ParseFieldSpaced(name: bytes, value: bytes)
    requires COLON !in name
    ensures ParseField(name + [COLON, SPACE] + value) == (name, value)
  {
    var line := name + [COLON, SPACE] + value;
    assert line == name + [COLON] + ([SPACE] + value);
    IndexOfAfter(name, COLON, [SPACE] + value);
    assert line[..|name|] == name && line[|name| + 1..] == [SPACE] + value;
  }

  /** `dispatchFrame`. */
  function Dispatch(st: State): State {
    var events := if |st.dataLines| > 0 then st.events + [Event(st.typ, st.dataLines, st.lastID, st.retry)]
                  else st.events;
    st.(events := events, typ := [], dataLines := [])
  }

  /** `applyField` on a line that is neither empty nor a comment. */
  function Apply(st: State, name: bytes, value: bytes): State {
    if name == EVENT_FIELD then st.(typ := value)
    else if name == DATA_FIELD then st.(dataLines := st.dataLines + [value])
    else if name == ID_FIELD then (if NUL in value then st else st.(lastID := value))
    else if name == RETRY_FIELD then
      (match ParseUint(value)
       case Some(ms) => st.(retry := ms)
       case None => st)
    else st
  }

  /** `acceptLine`. */
  function Accept(st: State, line: bytes): State {
    if line == [] then Dispatch(st)
    else if line[0] == COLON then st
    else Apply(st, ParseField(line).0, ParseField(line).1)
  }

  function Run(st: State, lines: seq<bytes>): State
    decreases |lines|
  {
    if lines == [] then st else Run(Accept(st, lines[0]), lines[1..])
  }

  lemma {:induction false} RunConcat(st: State, a: seq<bytes>, b: seq<bytes>)
    ensures Run(st, a + b) == Run(Run(st, a), b)
    decreases |a|
  {
    if a == [] {
      assert a + b == b;
    } else {
      ConcatTail(a, b);
      RunConcat(Accept(st, a[0]), a[1..], b);
    }
  }

  lemma RunOne(st: State, line: bytes)
    ensures Run(st, [line]) == Accept(st, line)
  {
  }

  lemma RunSnoc(st: State, lines: seq<bytes>, line: bytes)
    ensures Run(st, lines + [line]) == Accept(Run(st, lines), line)
  {
    RunConcat(st, lines, [line]);
  }

  /** A dispatched event is never altered, and a line dispatches at most one. */
  lemma {:induction false} RunExtends(st: State, lines: seq<bytes>)
    ensures st.events <= Run(st, lines).events
    decreases |lines|
  {
    if lines != [] {
      RunExtends(Accept(st, lines[0]), lines[1..]);
    }
  }

  /** Only a blank line dispatches. */
  lemma {:induction false} NoBlankNoDispatch(st: State, lines: seq<bytes>)
    requires forall k :: 0 <= k < |lines| ==> lines[k] != []
    ensures Run(st, lines).events == st.events
    decreases |lines|
  {
    if lines != [] {
      NoBlankNoDispatch(Accept(st, lines[0]), lines[1..]);
    }
  }

  // ------------------------------------------------- the four fields, byte by byte

  /** "event: " sets the type. */
  lemma EventField(st: State, value: bytes)
    ensures Accept(st, [101, 118, 101, 110, 116, 58, 32] + value) == st.(typ := value)
  {
    ParseFieldSpaced(EVENT_FIELD, value);
    assert EVENT_FIELD + [COLON, SPACE] == [101, 118, 101, 110, 116, 58, 32];
  }

  /** "data: " adds a line. */
  lemma DataField(st: State, value: bytes)
    ensures Accept(st, [100, 97, 116, 97, 58, 32] + value) == st.(dataLines := st.dataLines + [value])
  {
    ParseFieldSpaced(DATA_FIELD, value);
    assert DATA_FIELD + [COLON, SPACE] == [100, 97, 116, 97, 58, 32];
  }

  /** "id: " sets the ID, unless there is a NUL in it. */
  lemma IdField(st: State, value: bytes)
    ensures Accept(st, [105, 100, 58, 32] + value) == if 0 in value then st else st.(lastID := value)
  {
    ParseFieldSpaced(ID_FIELD, value);
    assert ID_FIELD + [COLON, SPACE] == [105, 100, 58, 32];
  }

  /** "retry: " sets the interval, if digits and nothing else follow and their value fits 64 bits. */
  lemma RetryField(st: State, value: bytes)
    ensures Accept(st, [114, 101, 116, 114, 121, 58, 32] + value) ==
            if value != [] && AllDigits(value) && DigitsValue(value) < 0x1_0000_0000_0000_0000
            then st.(retry := DigitsValue(value)) else st
  {
    ParseFieldSpaced(RETRY_FIELD, value);
    assert RETRY_FIELD + [COLON, SPACE] == [114, 101, 116, 114, 121, 58, 32];
  }

  /** Comments and lines with any other name, alone or before a colon, change nothing. */
  lemma OtherField(st: State, line: bytes)
    requires line != []
    requires line[0] == 58 ||
             ParseField(line).0 !in {[101, 118, 101, 110, 116], [100, 97, 116, 97], [105, 100], [114, 101, 116, 114, 121]}
    ensures Accept(st, line) == st
  {
  }

  /** The in-place form: fields updated line by line. */
  class StreamParser {
    var events: seq<Event>
    var typ: bytes
    var dataLines: seq<bytes>
    var lastID: bytes
    var retry: uint

    function Value(): State
      reads this
    {
      State(events, typ, dataLines, lastID, retry)
    }

    constructor ()
      ensures Value() == INITIAL
    {
      events, typ, dataLines, lastID, retry := [], [], [], [], 0;
    }

    method AcceptLine(line: bytes)
      modifies this
      ensures Value() == Accept(old(Value()), line)
      ensures old(events) <= events && |events| <= |old(events)| + 1
    {
      if line == [] {
        DispatchFrame();
        return;
      }
      ApplyField(line);
    }

    method DispatchFrame()
      modifies this
      ensures Value() == Dispatch(old(Value()))
    {
      if |dataLines| > 0 {
        events := events + [Event(typ, dataLines, lastID, retry)];
      }
      typ, dataLines := [], [];
    }

    method ApplyField(line: bytes)
      requires line != []
      modifies this
      ensures Value() == Accept(old(Value()), line)
    {
      if line[0] == COLON {
        return;
      }
      var (field, value) := ParseField(line);
      if field == EVENT_FIELD {
        typ := value;
      } else if field == DATA_FIELD {
        dataLines := dataLines + [value];
      } else if field == ID_FIELD {
        if NUL !in value {
          lastID := value;
        }
      } else if field == RETRY_FIELD {
        match ParseUint(value)
        case Some(ms) => retry := ms;
        case None =>
      }
    }
  }
}
