/** What a reader makes of the whole content of a stream, and of its prefixes. */
module Decode {
  import opened Bytes
  import opened Lines
  import opened LineLaws
  import P = Parser

  const BOM: bytes := [0xEF, 0xBB, 0xBF]

  /** Exactly one complete leading byte-order mark is removed. */
  function StripBOM(content: bytes): bytes {
    if BOM <= content then content[3..] else content
  }

  /** The events of a stream: split into lines, interpret, discard an unfinished frame. */
  function Events(content: bytes): seq<P.Event> {
    P.Run(P.INITIAL, StreamLines(StripBOM(content))).events
  }

  /** U+FEFF in UTF-8, once and at the start, is not part of the stream; a second one is. */
  lemma LeadingMarkOnly(content: bytes)
    ensures StripBOM([0xEF, 0xBB, 0xBF] + content) == content
    ensures !([0xEF, 0xBB, 0xBF] <= content) ==> StripBOM(content) == content
  {
    assert ([0xEF, 0xBB, 0xBF] + content)[3..] == content;
  }

  lemma CompleteLinesDecide(s: bytes)
    ensures P.Run(P.INITIAL, StreamLines(s)).events == P.Run(P.INITIAL, CompleteLines(s)).events
  {
    StreamIsCompletePlusRest(s);
    if UnfinishedLine(s) == [] {
      assert StreamLines(s) == CompleteLines(s);
    } else {
      P.RunSnoc(P.INITIAL, CompleteLines(s), UnfinishedLine(s));
    }
  }

  lemma LineEventsGrow(x: bytes, y: bytes)
    ensures P.Run(P.INITIAL, StreamLines(x)).events <= P.Run(P.INITIAL, StreamLines(x + y)).events
  {
    CompleteLinesDecide(x);
    CompleteLinesStable(x, y);
    var done, all := CompleteLines(x), StreamLines(x + y);
    assert all == done + all[|done|..];
    P.RunConcat(P.INITIAL, done, all[|done|..]);
    P.RunExtends(P.Run(P.INITIAL, done), all[|done|..]);
  }

  /**
   * Truncation monotonicity: a stream cut at any byte, even inside a CRLF, a
   * field line or the byte-order mark, yields a prefix of the full event list.
   */
  lemma TruncationMonotone(x: bytes, y: bytes)
    ensures Events(x) <= Events(x + y)
  {
    if |x| >= 3 {
      assert (x + y)[..3] == x[..3];
      if BOM <= x {
        assert (x + y)[3..] == x[3..] + y;
        LineEventsGrow(x[3..], y);
      } else {
        assert !(BOM <= x + y);
        LineEventsGrow(x, y);
      }
    } else if x <= BOM {
      assert BreakFree(x);
      assert x[..|x|] == x;
      if x != [] {
        UnterminatedLine(x);
        P.RunOne(P.INITIAL, x);
      }
    } else {
      var i :| 0 <= i < |x| && x[i] != BOM[i];
      assert (x + y)[i] == x[i];
      LineEventsGrow(x, y);
    }
  }
}
