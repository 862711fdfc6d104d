/**
 * End-of-line handling (section 9.2.5 of the WHATWG HTML Living Standard):
 * the grammar, the writer's splitter and the reader's split function.
 */
module Lines {
  import opened Bytes

  // ---------------------------------------------------------------- grammar

  /** A line terminator as the standard writes it: U+000D U+000A, U+000D or U+000A. */
  predicate IsEol(eol: bytes) {
    eol == [13, 10] || eol == [13] || eol == [10]
  }

  /**
   * `s` starts with `line` ended by `eol`. A CR directly followed by LF is never
   * read alone, and only a non-empty last line may lack a terminator.
   */
  ghost predicate FirstLine(s: bytes, line: bytes, eol: bytes) {
    && 13 !in line && 10 !in line
    && line + eol <= s
    && var rest := s[|line| + |eol|..];
    && (if eol == [] then line != [] && rest == [] else IsEol(eol))
    && (eol == [13] ==> rest == [] || rest[0] != 10)
  }

  /** `lines` with the terminators `eols` spell `s`. */
  ghost predicate Derives(s: bytes, lines: seq<bytes>, eols: seq<bytes>)
    requires |lines| == |eols|
    decreases |lines|
  {
    if lines == [] then
      s == []
    else
      && FirstLine(s, lines[0], eols[0])
      && Derives(s[|lines[0]| + |eols[0]|..], lines[1..], eols[1..])
  }

  // ------------------------------------------------- the lines of a stream

  /** Index of the first CR or LF at or after `i`, or the length when there is none. */
  function BreakFrom(s: bytes, i: nat): (n: nat)
    requires i <= |s|
    ensures i <= n <= |s|
    ensures n < |s| ==> IsBreak(s[n])
    decreases |s| - i
  {
    if i == |s| || IsBreak(s[i]) then i else BreakFrom(s, i + 1)
  }

  function BreakAt(s: bytes): nat {
    BreakFrom(s, 0)
  }

  /** Length of the terminator that starts at `n`: a CRLF pair counts as one. */
  function BreakLen(s: bytes, n: nat): (len: nat)
    requires n < |s|
    ensures 1 <= len <= |s| - n
  {
    if s[n] == CR && n + 1 < |s| && s[n + 1] == LF then 2 else 1
  }

  /** The lines of the stream from position `i`, which starts a line. */
  function LinesFrom(s: bytes, i: nat): seq<bytes>
    requires i <= |s|
    decreases |s| - i
  {
    var n := BreakFrom(s, i);
    if n < |s| then [s[i..n]] + LinesFrom(s, n + BreakLen(s, n))
    else if i < |s| then [s[i..]]
    else []
  }

  /** The lines of a complete stream, terminators removed. */
  function StreamLines(s: bytes): seq<bytes> {
    LinesFrom(s, 0)
  }

  lemma {:induction false} NoBreakBefore(s: bytes, i: nat)
    requires i <= |s|
    ensures forall k :: i <= k < BreakFrom(s, i) ==> !IsBreak(s[k])
    decreases |s| - i
  {
    if i < |s| && !IsBreak(s[i]) {
      NoBreakBefore(s, i + 1);
    }
  }

  lemma BreakAtFree(s: bytes)
    ensures BreakFree(s[..BreakAt(s)])
  {
    NoBreakBefore(s, 0);
  }

  lemma BreakUnique(s: bytes, i: nat, n: nat)
    requires i <= n <= |s| && (n < |s| ==> IsBreak(s[n]))
    requires forall k :: i <= k < n ==> !IsBreak(s[k])
    ensures BreakFrom(s, i) == n
  {
    NoBreakBefore(s, i);
  }

  lemma {:induction false} BreakShift(s: bytes, t: bytes, d: nat, i: nat)
    requires d <= |s| && t == s[d..] && i <= |t|
    ensures BreakFrom(s, d + i) == d + BreakFrom(t, i)
    decreases |t| - i
  {
    if i < |t| {
      assert s[d + i] == t[i];
      BreakShift(s, t, d, i + 1);
    }
  }

  lemma LinesStep(s: bytes, i: nat, n: nat, line: bytes, next: nat)
    requires i <= n < |s| && BreakFrom(s, i) == n
    requires line == s[i..n] && next == n + BreakLen(s, n)
    ensures LinesFrom(s, i) == [line] + LinesFrom(s, next)
  {
  }

  lemma LineShift(s: bytes, t: bytes, d: nat, i: nat, n: nat)
    requires d <= |s| && t == s[d..] && i <= n < |t|
    requires BreakFrom(s, d + i) == d + n
    ensures LinesFrom(s, d + i) == [t[i..n]] + LinesFrom(s, d + (n + BreakLen(t, n)))
  {
    SliceShift(s, t, d, i, n);
    BreakLenShift(s, t, d, n);
    LinesStep(s, d + i, d + n, t[i..n], d + (n + BreakLen(t, n)));
  }

  lemma SliceShift(s: bytes, t: bytes, d: nat, i: nat, n: nat)
    requires d <= |s| && t == s[d..] && i <= n <= |t|
    ensures t[i..n] == s[d + i..d + n]
  {
  }

  lemma BreakLenShift(s: bytes, t: bytes, d: nat, n: nat)
    requires d <= |s| && t == s[d..] && n < |t|
    ensures BreakLen(s, d + n) == BreakLen(t, n)
  {
  }

  lemma LastLineShift(s: bytes, t: bytes, d: nat, i: nat)
    requires d <= |s| && t == s[d..] && i <= |t|
    requires BreakFrom(s, d + i) == |s| && BreakFrom(t, i) == |t|
    ensures LinesFrom(s, d + i) == LinesFrom(t, i)
  {
  }

  /** The lines after a position depend only on the bytes after it. */
  lemma {:induction false} LinesShift(s: bytes, t: bytes, d: nat, i: nat)
    requires d <= |s| && t == s[d..] && i <= |t|
    ensures LinesFrom(s, d + i) == LinesFrom(t, i)
    decreases |t| - i
  {
    var n := BreakFrom(t, i);
    BreakShift(s, t, d, i);
    if n < |t| {
      var line, next := t[i..n], n + BreakLen(t, n);
      calc {
        LinesFrom(s, d + i);
        { LineShift(s, t, d, i, n); }
        [line] + LinesFrom(s, d + next);
        { LinesShift(s, t, d, next); }
        [line] + LinesFrom(t, next);
        { LinesStep(t, i, n, line, next); }
        LinesFrom(t, i);
      }
    } else {
      LastLineShift(s, t, d, i);
    }
  }

  lemma LinesFromDrop(s: bytes, i: nat)
    requires i <= |s|
    ensures LinesFrom(s, i) == StreamLines(s[i..])
  {
    LinesShift(s, s[i..], i, 0);
  }

  lemma BreakAtUnique(s: bytes, n: nat)
    requires n <= |s| && BreakFree(s[..n]) && (n < |s| ==> IsBreak(s[n]))
    ensures BreakAt(s) == n
  {
    assert forall i :: 0 <= i < n ==> s[..n][i] == s[i];
    BreakUnique(s, 0, n);
  }

  /** The first terminated line peels off the front. */
  lemma PeelFirst(s: bytes)
    requires BreakAt(s) < |s|
    ensures var n := BreakAt(s); StreamLines(s) == [s[..n]] + StreamLines(s[n + BreakLen(s, n)..])
  {
    LinesFromDrop(s, BreakAt(s) + BreakLen(s, BreakAt(s)));
  }

  /** One terminated line peels off the front. */
  lemma PeelLine(s: bytes, n: nat)
    requires n < |s| && BreakFree(s[..n]) && IsBreak(s[n])
    ensures StreamLines(s) == [s[..n]] + StreamLines(s[n + BreakLen(s, n)..])
  {
    BreakAtUnique(s, n);
    PeelFirst(s);
  }

  /** A line the writer ends with LF peels off whatever follows. */
  lemma PeelLF(line: bytes, rest: bytes)
    requires BreakFree(line)
    ensures StreamLines(line + [LF] + rest) == [line] + StreamLines(rest)
  {
    var s := line + [LF] + rest;
    assert s[..|line|] == line;
    PeelLine(s, |line|);
    assert s[|line| + 1..] == rest;
  }

  lemma UnterminatedLine(s: bytes)
    requires BreakFree(s) && s != []
    ensures StreamLines(s) == [s]
  {
  }

  /** Every line of a stream is free of CR and LF. */
  lemma {:induction false} StreamLinesBreakFree(s: bytes)
    ensures forall k :: 0 <= k < |StreamLines(s)| ==> BreakFree(StreamLines(s)[k])
    decreases |s|
  {
    if s != [] {
      var n := BreakAt(s);
      BreakAtFree(s);
      if n == |s| {
        assert s[..n] == s;
      } else {
        PeelFirst(s);
        StreamLinesBreakFree(s[n + BreakLen(s, n)..]);
      }
    }
  }

  /** The terminators that `StreamLines` consumed. */
  ghost function StreamEols(s: bytes): (eols: seq<bytes>)
    ensures |eols| == |StreamLines(s)|
    decreases |s|
  {
    if s == [] then
      []
    else
      var n := BreakAt(s);
      if n == |s| then
        [[]]
      else
        PeelFirst(s);
        [s[n..n + BreakLen(s, n)]] + StreamEols(s[n + BreakLen(s, n)..])
  }

  lemma DerivesCons(s: bytes, line: bytes, eol: bytes, lines: seq<bytes>, eols: seq<bytes>)
    requires FirstLine(s, line, eol) && |lines| == |eols| && Derives(s[|line| + |eol|..], lines, eols)
    ensures Derives(s, [line] + lines, [eol] + eols)
  {
  }

  lemma BreakIsFirstLine(s: bytes)
    requires s != []
    ensures var n := BreakAt(s);
            FirstLine(s, s[..n], if n == |s| then [] else s[n..n + BreakLen(s, n)])
  {
    var n := BreakAt(s);
    BreakAtFree(s);
    if n < |s| {
      assert s[..n] + s[n..n + BreakLen(s, n)] == s[..n + BreakLen(s, n)];
    }
  }

  lemma {:induction false} PeelEol(s: bytes, rest: bytes)
    requires BreakAt(s) < |s| && rest == s[BreakAt(s) + BreakLen(s, BreakAt(s))..]
    ensures var n := BreakAt(s); StreamEols(s) == [s[n..n + BreakLen(s, n)]] + StreamEols(rest)
  {
  }

  lemma TakeParts<T>(s: seq<T>, n: nat, cut: nat)
    requires n <= cut <= |s|
    ensures |s[..n]| + |s[n..cut]| == cut
  {
  }

  lemma {:induction false} DerivesFront(s: bytes, line: bytes, eol: bytes, rest: bytes)
    requires FirstLine(s, line, eol) && rest == s[|line| + |eol|..]
    requires StreamLines(s) == [line] + StreamLines(rest) && StreamEols(s) == [eol] + StreamEols(rest)
    requires Derives(rest, StreamLines(rest), StreamEols(rest))
    ensures Derives(s, StreamLines(s), StreamEols(s))
  {
    DerivesCons(s, line, eol, StreamLines(rest), StreamEols(rest));
  }

  lemma LastLineDerives(s: bytes)
    requires s != [] && BreakFree(s)
    ensures Derives(s, StreamLines(s), StreamEols(s))
  {
    UnterminatedLine(s);
    DerivesCons(s, s, [], [], []);
  }

  /** `StreamLines` follows the grammar of section 9.2.5 ... */
  lemma {:induction false} StreamLinesDerive(s: bytes)
    ensures Derives(s, StreamLines(s), StreamEols(s))
    decreases |s|
  {
    if s != [] {
      var n := BreakAt(s);
      BreakAtFree(s);
      if n == |s| {
        assert s[..n] == s;
        LastLineDerives(s);
      } else {
        StreamLinesDerive(s[n + BreakLen(s, n)..]);
        PeeledDerives(s, n, s[n + BreakLen(s, n)..]);
      }
    }
  }

  lemma {:induction false} PeeledDerives(s: bytes, n: nat, rest: bytes)
    requires n == BreakAt(s) < |s| && rest == s[n + BreakLen(s, n)..]
    requires Derives(rest, StreamLines(rest), StreamEols(rest))
    ensures Derives(s, StreamLines(s), StreamEols(s))
  {
    var cut := n + BreakLen(s, n);
    BreakIsFirstLine(s);
    PeelFirst(s);
    PeelEol(s, rest);
    TakeParts(s, n, cut);
    DerivesFront(s, s[..n], s[n..cut], rest);
  }

  lemma FirstLinePeels(s: bytes, line: bytes, eol: bytes)
    requires FirstLine(s, line, eol)
    ensures StreamLines(s) == [line] + StreamLines(s[|line| + |eol|..])
  {
    var n := |line|;
    assert s[..n] == line;
    if eol == [] {
      assert s == line;
      UnterminatedLine(line);
    } else {
      assert s[n] == eol[0];
      if |eol| == 2 {
        assert s[n + 1] == eol[1];
      } else if n + 1 < |s| {
        assert s[n + 1] == s[n + 1..][0];
      }
      PeelLine(s, n);
    }
  }

  /** ... and is the only reading of the stream that does. */
  lemma {:induction false} DerivationUnique(s: bytes, lines: seq<bytes>, eols: seq<bytes>)
    requires |lines| == |eols| && Derives(s, lines, eols)
    ensures lines == StreamLines(s)
    decreases |lines|
  {
    if lines != [] {
      var line, eol := lines[0], eols[0];
      HeadTail(lines);
      DerivationUnique(s[|line| + |eol|..], lines[1..], eols[1..]);
      FirstLinePeels(s, line, eol);
    }
  }

  // ----------------------------------------------------- the writer's side

  /** What the writer turns a payload into: the empty payload is one empty line. */
  function SplitLines(s: bytes): (lines: seq<bytes>)
    ensures |lines| >= 1
  {
    if s == [] then [[]] else StreamLines(s)
  }

  /** The walk has yielded `lines` and stands at the start of a line. */
  ghost predicate Walked(s: bytes, lines: seq<bytes>, start: nat) {
    start <= |s| && StreamLines(s) == lines + LinesFrom(s, start)
  }

  method ForEachLine(s: bytes) returns (lines: seq<bytes>)
    ensures lines == SplitLines(s)
  {
    if s == [] {
      return [[]];
    }
    lines := Walk(s);
  }

  method Walk(s: bytes) returns (lines: seq<bytes>)
    ensures lines == StreamLines(s)
  {
    lines := [];
    var start, i := 0, 0;
    while i < |s|
      invariant start <= i <= |s|
      invariant forall k :: start <= k < i ==> !IsBreak(s[k])
      invariant Walked(s, lines, start)
    {
      if s[i] == CR {
        WalkStep(s, lines, start, i);
        lines := lines + [s[start..i]];
        i := i + 1;
        if i < |s| && s[i] == LF {
          i := i + 1;
        }
        start := i;
      } else if s[i] == LF {
        WalkStep(s, lines, start, i);
        lines := lines + [s[start..i]];
        i := i + 1;
        start := i;
      } else {
        i := i + 1;
      }
    }
    WalkEnds(s, lines, start);
    if start < |s| {
      lines := lines + [s[start..]];
    }
  }

  lemma WalkStep(s: bytes, lines: seq<bytes>, start: nat, i: nat)
    requires start <= i < |s| && IsBreak(s[i])
    requires forall k :: start <= k < i ==> !IsBreak(s[k])
    requires Walked(s, lines, start)
    ensures Walked(s, lines + [s[start..i]], i + BreakLen(s, i))
  {
    BreakUnique(s, start, i);
    Regroup(lines, [s[start..i]], LinesFrom(s, i + BreakLen(s, i)));
  }

  lemma WalkEnds(s: bytes, lines: seq<bytes>, start: nat)
    requires Walked(s, lines, start)
    requires forall k :: start <= k < |s| ==> !IsBreak(s[k])
    ensures StreamLines(s) == if start < |s| then lines + [s[start..]] else lines
  {
  }

  /** `splitLines` with its allocation-saving path for payloads of one line. */
  method CollectLines(s: bytes) returns (lines: seq<bytes>)
    ensures lines == SplitLines(s)
  {
    if BreakFree(s) {
      if s != [] {
        UnterminatedLine(s);
      }
      return [s];
    }
    lines := ForEachLine(s);
  }

  // ----------------------------------------------------- the reader's side

  datatype Split = More | Token(advance: nat, line: bytes)

  /** What the split function answers for the buffered bytes. */
  function SplitToken(data: bytes, atEOF: bool): (r: Split)
    ensures r.Token? ==> 1 <= r.advance <= |data|
    ensures r.More? && atEOF ==> data == []
  {
    var n := BreakAt(data);
    if n == |data| then
      if atEOF && data != [] then Token(|data|, data) else More
    else if data[n] == CR && n + 1 == |data| && !atEOF then
      More
    else
      Token(n + BreakLen(data, n), data[..n])
  }

  /** No terminator has arrived, or just a CR that an LF may still follow. */
  predicate Undecided(data: bytes) {
    || (13 !in data && 10 !in data)
    || (data != [] && data[|data| - 1] == 13 && 13 !in data[..|data| - 1] && 10 !in data[..|data| - 1])
  }

  /** More input is asked for only while the first line is undecided, and never at its end. */
  lemma MoreIff(data: bytes, atEOF: bool)
    ensures SplitToken(data, atEOF).More? <==> if atEOF then data == [] else Undecided(data)
  {
    var n := BreakAt(data);
    BreakAtFree(data);
    if n == |data| {
      assert data[..n] == data;
    } else {
      UndecidedBreak(data, n);
    }
  }

  lemma UndecidedBreak(data: bytes, n: nat)
    requires n < |data| && IsBreak(data[n]) && BreakFree(data[..n])
    ensures Undecided(data) <==> n == |data| - 1 && data[n] == 13
  {
    var init := data[..|data| - 1];
    assert data[n] in data;
    if n < |init| {
      assert init[n] == data[n] && init[n] in init;
    } else {
      assert init == data[..n];
    }
  }

  method SplitSSELines(data: bytes, atEOF: bool) returns (r: Split)
    ensures r == SplitToken(data, atEOF)
    ensures r.More? <==> if atEOF then data == [] else Undecided(data)
  {
    MoreIff(data, atEOF);
    if atEOF && |data| == 0 {
      return More;
    }
    for i := 0 to |data|
      invariant BreakFree(data[..i])
    {
      if IsBreak(data[i]) {
        BreakAtUnique(data, i);
      }
      if data[i] == LF {
        return Token(i + 1, data[..i]);
      }
      if data[i] == CR {
        if i + 1 < |data| {
          if data[i + 1] == LF {
            return Token(i + 2, data[..i]);
          }
          return Token(i + 1, data[..i]);
        }
        if atEOF {
          return Token(i + 1, data[..i]);
        }
        return More;
      }
    }
    assert data[..|data|] == data;
    BreakAtUnique(data, |data|);
    if atEOF {
      return Token(|data|, data);
    }
    return More;
  }

  /** A token returned before the end of input stays the same whatever arrives later. */
  lemma TokenStable(data: bytes, later: bytes)
    requires SplitToken(data, false).Token?
    ensures SplitToken(data + later, false) == SplitToken(data, false)
    ensures SplitToken(data + later, true) == SplitToken(data, false)
  {
    var n := BreakAt(data);
    BreakAtFree(data);
    assert (data + later)[..n] == data[..n];
    BreakAtUnique(data + later, n);
  }

  /** Each token is the next line of the stream, with or without input still to come. */
  lemma TokenIsNextLine(data: bytes, later: bytes)
    requires SplitToken(data, false).Token?
    ensures var t := SplitToken(data, false);
            StreamLines(data + later) == [t.line] + StreamLines(data[t.advance..] + later)
  {
    var t := SplitToken(data, false);
    var n := BreakAt(data);
    BreakAtFree(data);
    assert (data + later)[..n] == data[..n];
    PeelLine(data + later, n);
    assert (data + later)[t.advance..] == data[t.advance..] + later;
  }

  lemma FinalTokenIsNextLine(data: bytes)
    ensures var t := SplitToken(data, true);
            StreamLines(data) == if t.More? then [] else [t.line] + StreamLines(data[t.advance..])
  {
    var n := BreakAt(data);
    if n < |data| {
      PeelFirst(data);
    }
  }
}
