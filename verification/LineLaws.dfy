/** Laws of the splitters: joining back, normalisation, and growing streams. */
module LineLaws {
  import opened Bytes
  import opened Lines

  /** `strings.Join(lines, "\n")`. */
  function JoinLines(lines: seq<bytes>): bytes {
    if lines == [] then []
    else if |lines| == 1 then lines[0]
    else lines[0] + [LF] + JoinLines(lines[1..])
  }

  /** CRLF and lone CR rewritten to LF, byte by byte. */
  function Normalize(s: bytes): (r: bytes)
    ensures s != [] ==> r != []
  {
    if s == [] then []
    else if s[0] == CR && |s| > 1 && s[1] == LF then [LF] + Normalize(s[2..])
    else if s[0] == CR then [LF] + Normalize(s[1..])
    else [s[0]] + Normalize(s[1..])
  }

  function DropTrailingLF(s: bytes): bytes {
    if s != [] && s[|s| - 1] == LF then s[..|s| - 1] else s
  }

  lemma NormalizeByte(s: bytes)
    requires s != [] && !IsBreak(s[0])
    ensures Normalize(s) == [s[0]] + Normalize(s[1..])
  {
  }

  /** Text without terminators is left alone. */
  lemma {:induction false} NormalizeBehind(head: bytes, tail: bytes)
    requires BreakFree(head)
    ensures Normalize(head + tail) == head + Normalize(tail)
    decreases |head|
  {
    if head == [] {
      assert head + tail == tail;
    } else {
      ConcatTail(head, tail);
      calc {
        Normalize(head + tail);
        { NormalizeByte(head + tail); }
        [head[0]] + Normalize(head[1..] + tail);
        { NormalizeBehind(head[1..], tail); }
        [head[0]] + (head[1..] + Normalize(tail));
        { Regroup([head[0]], head[1..], Normalize(tail)); HeadTail(head); }
        head + Normalize(tail);
      }
    }
  }

  lemma NormalizeBreak(s: bytes)
    requires s != [] && IsBreak(s[0])
    ensures Normalize(s) == [LF] + Normalize(s[BreakLen(s, 0)..])
  {
  }

  lemma AtBreak(s: bytes, n: nat)
    requires n < |s|
    ensures s == s[..n] + s[n..]
    ensures s[n..][BreakLen(s[n..], 0)..] == s[n + BreakLen(s, n)..]
  {
  }

  lemma {:induction false} NormalizeLine(s: bytes, n: nat)
    requires n < |s| && BreakFree(s[..n]) && IsBreak(s[n])
    ensures Normalize(s) == s[..n] + [LF] + Normalize(s[n + BreakLen(s, n)..])
  {
    AtBreak(s, n);
    NormalizeBehind(s[..n], s[n..]);
    NormalizeBreak(s[n..]);
    Regroup(s[..n], [LF], Normalize(s[n + BreakLen(s, n)..]));
  }

  lemma NormalizeLast(s: bytes)
    requires BreakFree(s)
    ensures Normalize(s) == s
  {
    NormalizeBehind(s, []);
    assert s + [] == s;
  }

  lemma JoinCons(line: bytes, lines: seq<bytes>)
    requires lines != []
    ensures JoinLines([line] + lines) == line + [LF] + JoinLines(lines)
  {
  }

  /** Splitting and joining normalises the terminators and drops one at the end. */
  lemma {:induction false} JoinAfterSplit(s: bytes)
    ensures JoinLines(SplitLines(s)) == DropTrailingLF(Normalize(s))
    decreases |s|
  {
    if s != [] {
      var n := BreakAt(s);
      BreakAtFree(s);
      if n == |s| {
        assert s[..n] == s;
        NormalizeLast(s);
        NoTrailingBreak(s);
      } else {
        JoinAfterTerminator(s, n);
        var rest := s[n + BreakLen(s, n)..];
        if rest != [] {
          JoinAfterSplit(rest);
        }
      }
    }
  }

  lemma JoinAfterTerminator(s: bytes, n: nat)
    requires n < |s| && BreakFree(s[..n]) && IsBreak(s[n])
    ensures var rest := s[n + BreakLen(s, n)..];
            && JoinLines(SplitLines(s)) ==
               (if rest == [] then s[..n] else s[..n] + [LF] + JoinLines(SplitLines(rest)))
            && DropTrailingLF(Normalize(s)) ==
               (if rest == [] then s[..n] else s[..n] + [LF] + DropTrailingLF(Normalize(rest)))
  {
    var rest := s[n + BreakLen(s, n)..];
    PeelLine(s, n);
    NormalizeLine(s, n);
    if rest != [] {
      JoinCons(s[..n], StreamLines(rest));
      DropBehind(s[..n] + [LF], Normalize(rest));
    }
  }

  lemma NoTrailingBreak(s: bytes)
    requires s != [] && BreakAt(s) == |s|
    ensures StreamLines(s) == [s] && DropTrailingLF(s) == s
  {
    NoBreakBefore(s, 0);
  }

  lemma DropBehind(head: bytes, tail: bytes)
    requires tail != []
    ensures DropTrailingLF(head + tail) == head + DropTrailingLF(tail)
  {
  }

  ghost predicate AllBreakFree(lines: seq<bytes>) {
    forall k :: 0 <= k < |lines| ==> BreakFree(lines[k])
  }

  /** An empty last line is the only thing joining and splitting loses. */
  lemma {:induction false} SplitAfterJoin(lines: seq<bytes>)
    requires lines != [] && AllBreakFree(lines)
    ensures SplitLines(JoinLines(lines)) ==
            if |lines| > 1 && lines[|lines| - 1] == [] then lines[..|lines| - 1] else lines
    decreases |lines|
  {
    if |lines| == 1 {
      if lines[0] != [] {
        UnterminatedLine(lines[0]);
      }
    } else {
      var rest := lines[1..];
      SplitAfterJoin(rest);
      SplitJoinCons(lines[0], rest);
      DropLastCons(lines);
      if JoinLines(rest) == [] {
        JoinEmpty(rest);
      }
    }
  }

  lemma DropLastCons<T>(s: seq<T>)
    requires |s| > 1
    ensures s == [s[0]] + s[1..]
    ensures s[..|s| - 1] == [s[0]] + s[1..][..|s| - 2]
    ensures s[|s| - 1] == s[1..][|s| - 2]
  {
  }

  lemma SplitJoinCons(line: bytes, rest: seq<bytes>)
    requires BreakFree(line) && rest != []
    ensures SplitLines(JoinLines([line] + rest)) == [line] + StreamLines(JoinLines(rest))
  {
    JoinCons(line, rest);
    PeelLF(line, JoinLines(rest));
  }

  lemma JoinEmpty(lines: seq<bytes>)
    requires lines != [] && JoinLines(lines) == []
    ensures lines == [[]]
  {
  }

  /** `JoinLines` is undone by splitting for exactly these lists of lines. */
  lemma {:induction false} JoinInvertibleIff(lines: seq<bytes>)
    ensures SplitLines(JoinLines(lines)) == lines <==>
            lines != [] && AllBreakFree(lines) && (|lines| == 1 || lines[|lines| - 1] != [])
  {
    var s := JoinLines(lines);
    StreamLinesBreakFree(s);
    if lines != [] && AllBreakFree(lines) {
      SplitAfterJoin(lines);
    }
  }

  // ------------------------------------------------------- growing streams

  /** The lines of `s` whose terminator has begun to arrive. */
  function CompleteLines(s: bytes): seq<bytes>
    decreases |s|
  {
    var n := BreakAt(s);
    if n == |s| then [] else [s[..n]] + CompleteLines(s[n + BreakLen(s, n)..])
  }

  /** What follows the last terminator. */
  function UnfinishedLine(s: bytes): bytes
    decreases |s|
  {
    var n := BreakAt(s);
    if n == |s| then s else UnfinishedLine(s[n + BreakLen(s, n)..])
  }

  /** At the end of input at most one non-empty unterminated line is added. */
  lemma {:induction false} StreamIsCompletePlusRest(s: bytes)
    ensures StreamLines(s) == CompleteLines(s) + if UnfinishedLine(s) == [] then [] else [UnfinishedLine(s)]
    decreases |s|
  {
    var n := BreakAt(s);
    if n < |s| {
      var rest := s[n + BreakLen(s, n)..];
      PeelFirst(s);
      StreamIsCompletePlusRest(rest);
      Regroup([s[..n]], CompleteLines(rest), if UnfinishedLine(rest) == [] then [] else [UnfinishedLine(rest)]);
    }
  }

  lemma PrefixCons<T>(x: T, a: seq<T>, b: seq<T>)
    requires a <= b
    ensures [x] + a <= [x] + b
  {
  }

  /** Later bytes never change a line whose terminator has begun to arrive. */
  lemma {:induction false} CompleteLinesStable(x: bytes, y: bytes)
    ensures CompleteLines(x) <= StreamLines(x + y)
    decreases |x|
  {
    var n := BreakAt(x);
    if n < |x| {
      BreakAtFree(x);
      FirstLineStable(x, y, n);
      var cut := n + BreakLen(x, n);
      if cut < |x| {
        CompleteLinesStable(x[cut..], y);
        PrefixCons(x[..n], CompleteLines(x[cut..]), StreamLines(x[cut..] + y));
      }
    }
  }

  lemma FirstLineStable(x: bytes, y: bytes, n: nat)
    requires n < |x| && BreakFree(x[..n]) && IsBreak(x[n])
    ensures var cut := n + BreakLen(x, n);
            && (cut < |x| ==> StreamLines(x + y) == [x[..n]] + StreamLines(x[cut..] + y))
            && [x[..n]] <= StreamLines(x + y)
  {
    var s, cut := x + y, n + BreakLen(x, n);
    assert s[..n] == x[..n];
    PeelLine(s, n);
    if cut < |x| {
      assert BreakLen(s, n) == BreakLen(x, n);
      assert s[cut..] == x[cut..] + y;
    }
  }
}
