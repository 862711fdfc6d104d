/** Keyed data lines (`KeyedLines`, `JoinLines`): composing them and getting the values back. */
module Keyed {
  import opened Bytes
  import opened Lines
  import opened LineLaws
  import opened Writer
  import opened RoundTrip
  import P = Parser
  import Decode

  function KeyedLine(key: bytes, line: bytes): bytes {
    key + [SPACE] + line
  }

  function Prefixed(key: bytes, lines: seq<bytes>): (r: seq<bytes>)
    ensures |r| == |lines|
    ensures forall k :: 0 <= k < |lines| ==> r[k] == KeyedLine(key, lines[k])
  {
    seq(|lines|, k requires 0 <= k < |lines| => KeyedLine(key, lines[k]))
  }

  /** What `KeyedLines` returns: every line of the value behind the key, nothing for no value. */
  function KeyedText(key: bytes, value: bytes): bytes {
    if value == [] then [] else JoinLines(Prefixed(key, SplitLines(value)))
  }

  method KeyedLines(key: bytes, value: bytes) returns (text: bytes)
    ensures text == KeyedText(key, value)
    ensures value == [] ==> text == []
    ensures value != [] ==>
            var lines := SplitLines(value);
            text == JoinLines(seq(|lines|, k requires 0 <= k < |lines| => key + [32] + lines[k]))
  {
    if value == [] {
      return [];
    }
    var lines := CollectLines(value);
    text := [];
    for i := 0 to |lines|
      invariant text == JoinLines(Prefixed(key, lines[..i]))
    {
      AppendKeyed(key, lines, i);
      if i > 0 {
        text := text + [10];
      }
      text := text + key;
      text := text + [32];
      text := text + lines[i];
    }
    assert lines[..|lines|] == lines;
    assert Prefixed(key, lines) == seq(|lines|, k requires 0 <= k < |lines| => key + [32] + lines[k]);
  }

  lemma AppendKeyed(key: bytes, lines: seq<bytes>, i: nat)
    requires i < |lines|
    ensures var text := JoinLines(Prefixed(key, lines[..i]));
            JoinLines(Prefixed(key, lines[..i + 1])) ==
            (if i > 0 then text + [10] else text) + key + [32] + lines[i]
  {
    var done, line := Prefixed(key, lines[..i]), KeyedLine(key, lines[i]);
    assert Prefixed(key, lines[..i + 1]) == done + [line];
    if i > 0 {
      JoinConcat(done, [line]);
    }
  }

  lemma {:induction false} JoinConcat(a: seq<bytes>, b: seq<bytes>)
    requires a != [] && b != []
    ensures JoinLines(a + b) == JoinLines(a) + [LF] + JoinLines(b)
    decreases |a|
  {
    if |a| == 1 {
      assert a + b == [a[0]] + b;
      JoinCons(a[0], b);
    } else {
      calc {
        JoinLines(a + b);
        { assert a + b == [a[0]] + (a[1..] + b); JoinCons(a[0], a[1..] + b); }
        a[0] + [LF] + JoinLines(a[1..] + b);
        { JoinConcat(a[1..], b); }
        a[0] + [LF] + (JoinLines(a[1..]) + [LF] + JoinLines(b));
        { Reassociate(a[0] + [LF], JoinLines(a[1..]), [LF], JoinLines(b)); }
        a[0] + [LF] + JoinLines(a[1..]) + [LF] + JoinLines(b);
        { HeadTail(a); JoinCons(a[0], a[1..]); }
        JoinLines(a) + [LF] + JoinLines(b);
      }
    }
  }

  lemma Reassociate(a: bytes, b: bytes, c: bytes, d: bytes)
    ensures a + (b + c + d) == a + b + c + d
  {
  }

  // ------------------------------------------------------------- composition

  datatype Part = Part(key: bytes, value: bytes)

  /** The lines a part contributes: an empty value is one empty line once it is joined. */
  function PartLines(p: Part): (lines: seq<bytes>)
    ensures |lines| >= 1
  {
    if p.value == [] then [[]] else Prefixed(p.key, SplitLines(p.value))
  }

  function AllLines(parts: seq<Part>): seq<bytes>
    decreases |parts|
  {
    if parts == [] then [] else PartLines(parts[0]) + AllLines(parts[1..])
  }

  function Texts(parts: seq<Part>): (r: seq<bytes>)
    ensures |r| == |parts|
    ensures forall k :: 0 <= k < |parts| ==> r[k] == KeyedText(parts[k].key, parts[k].value)
  {
    seq(|parts|, k requires 0 <= k < |parts| => KeyedText(parts[k].key, parts[k].value))
  }

  /** The payload: the keyed texts joined by LF. */
  function Compose(parts: seq<Part>): bytes {
    JoinLines(Texts(parts))
  }

  lemma PartText(p: Part)
    ensures KeyedText(p.key, p.value) == JoinLines(PartLines(p))
  {
  }

  lemma ComposeFront(parts: seq<Part>)
    requires |parts| > 1
    ensures Compose(parts) == KeyedText(parts[0].key, parts[0].value) + [LF] + Compose(parts[1..])
  {
    assert Texts(parts) == [KeyedText(parts[0].key, parts[0].value)] + Texts(parts[1..]);
    JoinCons(KeyedText(parts[0].key, parts[0].value), Texts(parts[1..]));
  }

  lemma {:induction false} AllLinesFront(parts: seq<Part>)
    requires |parts| > 1
    ensures JoinLines(AllLines(parts)) == JoinLines(PartLines(parts[0])) + [LF] + JoinLines(AllLines(parts[1..]))
  {
    AllLinesNonEmpty(parts[1..]);
    JoinConcat(PartLines(parts[0]), AllLines(parts[1..]));
  }

  lemma ComposeOne(parts: seq<Part>)
    requires |parts| == 1
    ensures Compose(parts) == JoinLines(AllLines(parts))
  {
    PartText(parts[0]);
    assert AllLines(parts) == PartLines(parts[0]);
    assert Texts(parts) == [KeyedText(parts[0].key, parts[0].value)];
  }

  /** Joining joined texts is joining all their lines. */
  lemma {:induction false} ComposeJoins(parts: seq<Part>)
    requires parts != []
    ensures Compose(parts) == JoinLines(AllLines(parts))
    decreases |parts|
  {
    if |parts| == 1 {
      ComposeOne(parts);
    } else {
      ComposeFront(parts);
      PartText(parts[0]);
      ComposeJoins(parts[1..]);
      AllLinesFront(parts);
    }
  }

  lemma AllLinesNonEmpty(parts: seq<Part>)
    requires parts != []
    ensures AllLines(parts) != []
  {
  }

  ghost predicate PlainKeys(parts: seq<Part>) {
    forall k :: 0 <= k < |parts| ==> BreakFree(parts[k].key)
  }

  lemma PartLinesBreakFree(p: Part)
    requires BreakFree(p.key)
    ensures AllBreakFree(PartLines(p))
  {
    if p.value != [] {
      var lines := SplitLines(p.value);
      StreamLinesBreakFree(p.value);
      forall k | 0 <= k < |lines| ensures BreakFree(PartLines(p)[k]) {
        BreakFreeConcat(p.key, [SPACE]);
        BreakFreeConcat(p.key + [SPACE], lines[k]);
      }
    }
  }

  lemma {:induction false} AllLinesBreakFree(parts: seq<Part>)
    requires PlainKeys(parts)
    ensures AllBreakFree(AllLines(parts))
    decreases |parts|
  {
    if parts != [] {
      PartLinesBreakFree(parts[0]);
      AllLinesBreakFree(parts[1..]);
    }
  }

  /** `lines` without a trailing empty one, unless it is the only one. */
  function Trimmed(lines: seq<bytes>): seq<bytes> {
    if |lines| > 1 && lines[|lines| - 1] == [] then lines[..|lines| - 1] else lines
  }

  /** Splitting the payload gives back the keyed lines of all parts, in order. */
  lemma ComposeSplits(parts: seq<Part>)
    requires parts != [] && PlainKeys(parts)
    ensures SplitLines(Compose(parts)) == Trimmed(AllLines(parts))
  {
    ComposeJoins(parts);
    AllLinesBreakFree(parts);
    AllLinesNonEmpty(parts);
    SplitAfterJoin(AllLines(parts));
  }

  // ---------------------------------------------------------------- grouping

  /** The value on a line whose text before the first space is `key`. */
  function ValueFor(key: bytes, line: bytes): seq<bytes> {
    var n := P.IndexOf(line, SPACE);
    if n < |line| && line[..n] == key then [line[n + 1..]] else []
  }

  /** What a client collects for a key. */
  function Group(key: bytes, lines: seq<bytes>): seq<bytes> {
    if lines == [] then [] else Group(key, lines[..|lines| - 1]) + ValueFor(key, lines[|lines| - 1])
  }

  lemma GroupSnoc(key: bytes, lines: seq<bytes>, line: bytes)
    ensures Group(key, lines + [line]) == Group(key, lines) + ValueFor(key, line)
  {
  }

  lemma {:induction false} GroupConcat(key: bytes, a: seq<bytes>, b: seq<bytes>)
    ensures Group(key, a + b) == Group(key, a) + Group(key, b)
    decreases |b|
  {
    if b == [] {
      assert a + b == a;
    } else {
      var n := |b| - 1;
      calc {
        Group(key, a + b);
        { assert a + b == (a + b[..n]) + [b[n]]; GroupSnoc(key, a + b[..n], b[n]); }
        Group(key, a + b[..n]) + ValueFor(key, b[n]);
        { GroupConcat(key, a, b[..n]); }
        Group(key, a) + Group(key, b[..n]) + ValueFor(key, b[n]);
        { Regroup(Group(key, a), Group(key, b[..n]), ValueFor(key, b[n])); }
        Group(key, a) + Group(key, b);
      }
    }
  }

  lemma KeyedValue(key: bytes, own: bytes, line: bytes)
    requires SPACE !in own
    ensures ValueFor(key, KeyedLine(own, line)) == if own == key then [line] else []
  {
    P.IndexOfAfter(own, SPACE, line);
    var s := KeyedLine(own, line);
    assert s[..|own|] == own && s[|own| + 1..] == line;
  }

  lemma {:induction false} GroupPrefixed(key: bytes, own: bytes, lines: seq<bytes>)
    requires SPACE !in own
    ensures Group(key, Prefixed(own, lines)) == if own == key then lines else []
    decreases |lines|
  {
    if lines != [] {
      var n := |lines| - 1;
      var last := if own == key then [lines[n]] else [];
      calc {
        Group(key, Prefixed(own, lines));
        { GroupPrefixedLast(key, own, lines); }
        Group(key, Prefixed(own, lines[..n])) + last;
        { GroupPrefixed(key, own, lines[..n]); }
        (if own == key then lines[..n] else []) + last;
        { assert lines == lines[..n] + [lines[n]]; }
        if own == key then lines else [];
      }
    }
  }

  lemma GroupPrefixedLast(key: bytes, own: bytes, lines: seq<bytes>)
    requires SPACE !in own && lines != []
    ensures var n := |lines| - 1;
            Group(key, Prefixed(own, lines)) == Group(key, Prefixed(own, lines[..n])) + if own == key then [lines[n]] else []
  {
    var n := |lines| - 1;
    KeyedValue(key, own, lines[n]);
    PrefixedLast(own, lines);
    GroupSnoc(key, Prefixed(own, lines[..n]), KeyedLine(own, lines[n]));
  }

  lemma PrefixedLast(own: bytes, lines: seq<bytes>)
    requires lines != []
    ensures var n := |lines| - 1; Prefixed(own, lines) == Prefixed(own, lines[..n]) + [KeyedLine(own, lines[n])]
  {
  }

  /** The lines a client should find under a part's key. */
  function ValueLines(p: Part): seq<bytes> {
    if p.value == [] then [] else SplitLines(p.value)
  }

  lemma GroupPart(key: bytes, p: Part)
    requires SPACE !in p.key
    ensures Group(key, PartLines(p)) == if p.key == key then ValueLines(p) else []
  {
    if p.value == [] {
      GroupSnoc(key, [], []);
      assert [] + [[]] == PartLines(p);
    } else {
      GroupPrefixed(key, p.key, SplitLines(p.value));
    }
  }

  ghost predicate TokenKeys(parts: seq<Part>) {
    && PlainKeys(parts)
    && (forall k :: 0 <= k < |parts| ==> SPACE !in parts[k].key)
    && forall i, j :: 0 <= i < j < |parts| ==> parts[i].key != parts[j].key
  }

  lemma GroupFront(key: bytes, parts: seq<Part>)
    requires parts != []
    ensures Group(key, AllLines(parts)) == Group(key, PartLines(parts[0])) + Group(key, AllLines(parts[1..]))
  {
    GroupConcat(key, PartLines(parts[0]), AllLines(parts[1..]));
  }

  /** No part has this key, and no key has a space. */
  ghost predicate Absent(key: bytes, parts: seq<Part>) {
    forall k :: 0 <= k < |parts| ==> SPACE !in parts[k].key && parts[k].key != key
  }

  lemma {:induction false} GroupAbsent(key: bytes, parts: seq<Part>)
    requires Absent(key, parts)
    ensures Group(key, AllLines(parts)) == []
    decreases |parts|
  {
    if parts != [] {
      var p, rest := parts[0], parts[1..];
      GroupFront(key, parts);
      GroupPart(key, p);
      assert Absent(key, rest);
      GroupAbsent(key, rest);
    }
  }

  lemma {:induction false} GroupAll(key: bytes, parts: seq<Part>, i: nat)
    requires i < |parts| && forall k :: 0 <= k < |parts| ==> SPACE !in parts[k].key && (parts[k].key == key <==> k == i)
    ensures Group(key, AllLines(parts)) == ValueLines(parts[i])
    decreases |parts|
  {
    var p, rest := parts[0], parts[1..];
    GroupFront(key, parts);
    GroupPart(key, p);
    if i == 0 {
      GroupAbsent(key, rest);
      assert ValueLines(p) + [] == ValueLines(p);
    } else {
      GroupAll(key, rest, i - 1);
      assert [] + ValueLines(parts[i]) == ValueLines(parts[i]);
    }
  }

  /** Trimming an empty line does not disturb any group. */
  lemma GroupTrimmed(key: bytes, lines: seq<bytes>)
    ensures Group(key, Trimmed(lines)) == Group(key, lines)
  {
  }

  /**
   * Keyed composition through the wire: the one event a reader decodes has the
   * keyed lines of all parts as data lines, and collecting the lines of a key
   * recovers the lines of that part's value.
   */
  lemma {:induction false} KeyedRoundTrip(name: bytes, parts: seq<Part>, i: nat)
    requires BreakFree(name) && TokenKeys(parts) && i < |parts|
    ensures var events := Decode.Events(ItemBytes(Sent(Event(name, Compose(parts), [], 0))));
            && |events| == 1
            && events[0].dataLines == Trimmed(AllLines(parts))
            && Group(parts[i].key, events[0].dataLines) == ValueLines(parts[i])
  {
    SingleRoundTrip([Sent(Event(name, Compose(parts), [], 0))]);
    ComposeSplits(parts);
    GroupTrimmed(parts[i].key, AllLines(parts));
    GroupAll(parts[i].key, parts, i);
  }
}
