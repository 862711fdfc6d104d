/** Replaying stored events over a connection (replay.go). */
module Replay {
  import opened Bytes
  import opened Options
  import opened Decimal
  import opened Filters
  import opened Writer
  import opened RoundTrip
  import opened Lines
  import opened Hub
  import C = Connection
  import P = Parser
  import Decode

  datatype Answer = Found(events: seq<Event>) | Unavailable

  /** An `EventStore`; `filtered` is present when it can push a predicate into its query. */
  datatype EventStore = EventStore(
    after: bytes -> Answer,
    filtered: Option<(bytes, Event -> Verdict) -> Answer>)

  datatype ReplayError = StoreFailed | SendFailed

  function Sends(events: seq<Event>): (items: seq<Item>)
    ensures |items| == |events|
    ensures forall k :: 0 <= k < |events| ==> items[k] == Sent(events[k])
  {
    seq(|events|, k requires 0 <= k < |events| => Sent(events[k]))
  }

  /** The bytes of a fully written list of events. */
  function WireOf(events: seq<Event>): bytes {
    Wire(Sends(events))
  }

  lemma WireOfSnoc(events: seq<Event>, e: Event)
    ensures WireOf(events + [e]) == WireOf(events) + Frame(e)
  {
    SendsSnoc(events, e);
    WireSnoc(Sends(events), Sent(e));
  }

  lemma WireOfTake(events: seq<Event>, i: nat)
    requires i < |events|
    ensures WireOf(events[..i + 1]) == WireOf(events[..i]) + Frame(events[i])
  {
    assert events[..i + 1] == events[..i] + [events[i]];
    WireOfSnoc(events[..i], events[i]);
  }

  lemma SendsSnoc(events: seq<Event>, e: Event)
    ensures Sends(events + [e]) == Sends(events) + [Sent(e)]
  {
  }

  lemma {:induction false} WireSnoc(items: seq<Item>, i: Item)
    ensures Wire(items + [i]) == Wire(items) + ItemBytes(i)
    decreases |items|
  {
    if items == [] {
      assert [] + [i] == [i];
      WireOne([i]);
    } else {
      ConcatTail(items, [i]);
      WireSnoc(items[1..], i);
      Regroup(ItemBytes(items[0]), Wire(items[1..]), ItemBytes(i));
    }
  }

  /** The replay loop: sends until the first failure and returns how many went out whole. */
  method SendAll(stream: C.Stream, events: seq<Event>)
    returns (count: nat, failed: bool, ghost accepted: nat)
    modifies stream.w
    ensures count <= |events|
    ensures !failed ==> count == |events| && stream.w.wire == old(stream.w.wire) + WireOf(events)
    ensures failed ==> count < |events| && accepted <= |Frame(events[count])|
    ensures failed ==> stream.w.wire == old(stream.w.wire) + WireOf(events[..count]) + Frame(events[count])[..accepted]
    ensures stream.w.accepting ==> !failed
  {
    accepted := 0;
    for i := 0 to |events|
      invariant stream.w.wire == old(stream.w.wire) + WireOf(events[..i])
    {
      var err, n := stream.Send(events[i]);
      if err.Some? {
        return i, true, n;
      }
      WireOfTake(events, i);
      Regroup(old(stream.w.wire), WireOf(events[..i]), Frame(events[i]));
    }
    assert events[..|events|] == events;
    return |events|, false, 0;
  }

  /** `Replay`. */
  method Replay(stream: C.Stream, store: EventStore, lastID: bytes)
    returns (count: nat, err: Option<ReplayError>, ghost accepted: nat)
    modifies stream.w
    ensures Replayed(store.after(lastID), old(stream.w.wire), stream.w.wire, count, err, accepted)
    ensures store.after(lastID).Unavailable? ==> count == 0 && err == Some(StoreFailed) && stream.w.wire == old(stream.w.wire)
    ensures store.after(lastID).Found? ==>
            var events := store.after(lastID).events;
            if err.None? then
              count == |events| && stream.w.wire == old(stream.w.wire) + WireOf(events)
            else
              && err == Some(SendFailed) && count < |events| && accepted <= |Frame(events[count])|
              && stream.w.wire == old(stream.w.wire) + WireOf(events[..count]) + Frame(events[count])[..accepted]
    ensures stream.w.accepting ==> err != Some(SendFailed)
  {
    match store.after(lastID)
    case Unavailable =>
      return 0, Some(StoreFailed), 0;
    case Found(events) =>
      var failed: bool;
      count, failed, accepted := SendAll(stream, events);
      err := if failed then Some(SendFailed) else None;
  }

  /** What a replay owes for the store's answer: count, error and bytes written. */
  ghost predicate Replayed(answer: Answer, before: bytes, now: bytes, count: nat, err: Option<ReplayError>, accepted: nat) {
    match answer
    case Unavailable => count == 0 && err == Some(StoreFailed) && now == before
    case Found(events) =>
      match err
      case None => count == |events| && now == before + WireOf(events)
      case Some(e) =>
        && e == SendFailed
        && count < |events| && accepted <= |Frame(events[count])|
        && now == before + WireOf(events[..count]) + Frame(events[count])[..accepted]
  }

  function Matching(pred: Event -> Verdict): Event -> bool {
    e => pred(e) == Yes
  }

  /** The events that `ReplayFiltered` sends. */
  function Selected(store: EventStore, lastID: bytes, pred: Option<Event -> Verdict>): Answer {
    if pred.None? then store.after(lastID)
    else if store.filtered.Some? then store.filtered.value(lastID, pred.value)
    else
      match store.after(lastID)
      case Unavailable => Unavailable
      case Found(all) => Found(Filter(all, Matching(pred.value)))
  }

  /** `events` are the events of `all` on which `pred` answers yes, at the positions `at`, in order. */
  ghost predicate YesAt(events: seq<Event>, all: seq<Event>, pred: Event -> Verdict, at: seq<nat>) {
    && |at| == |events|
    && (forall i, j :: 0 <= i < j < |at| ==> at[i] < at[j])
    && (forall k :: 0 <= k < |at| ==> at[k] < |all| && events[k] == all[at[k]] && pred(events[k]) == Yes)
    && forall i: nat {:trigger i in at} :: i < |all| && pred(all[i]) == Yes ==> i in at
  }

  /** Exactly those, each once: an event on which the predicate panics is not among them. */
  ghost predicate YesOnly(events: seq<Event>, all: seq<Event>, pred: Event -> Verdict) {
    exists at :: YesAt(events, all, pred, at)
  }

  lemma MatchingIsYes(all: seq<Event>, pred: Event -> Verdict)
    ensures YesOnly(Filter(all, Matching(pred)), all, pred)
  {
    FilterKeeps(all, Matching(pred));
    assert YesAt(Filter(all, Matching(pred)), all, pred, Positions(all, Matching(pred)));
  }

  /** The answer of a store that cannot filter, filtered in memory. */
  ghost predicate FilteredAnswer(answer: Answer, unfiltered: Answer, pred: Event -> Verdict) {
    match unfiltered
    case Unavailable => answer == Unavailable
    case Found(all) => answer.Found? && YesOnly(answer.events, all, pred)
  }

  /** `ReplayFiltered`, with the push-down path and the in-memory fallback. */
  method ReplayFiltered(stream: C.Stream, store: EventStore, lastID: bytes, pred: Option<Event -> Verdict>)
    returns (count: nat, err: Option<ReplayError>, ghost accepted: nat)
    modifies stream.w
    ensures Replayed(Selected(store, lastID, pred), old(stream.w.wire), stream.w.wire, count, err, accepted)
    ensures pred.None? ==> Replayed(store.after(lastID), old(stream.w.wire), stream.w.wire, count, err, accepted)
    ensures pred.Some? && store.filtered.Some? ==>
            Replayed(store.filtered.value(lastID, pred.value), old(stream.w.wire), stream.w.wire, count, err, accepted)
    ensures pred.Some? && store.filtered.None? ==>
            exists answer :: FilteredAnswer(answer, store.after(lastID), pred.value)
                             && Replayed(answer, old(stream.w.wire), stream.w.wire, count, err, accepted)
    ensures stream.w.accepting ==> err != Some(SendFailed)
  {
    if pred.None? {
      count, err, accepted := Replay(stream, store, lastID);
      return;
    }
    var answer := Query(store, lastID, pred.value);
    match answer
    case Unavailable =>
      return 0, Some(StoreFailed), 0;
    case Found(events) =>
      var failed: bool;
      count, failed, accepted := SendAll(stream, events);
      err := if failed then Some(SendFailed) else None;
  }

  /** The events that satisfy the predicate, from the store or by filtering its answer. */
  method Query(store: EventStore, lastID: bytes, pred: Event -> Verdict) returns (answer: Answer)
    ensures answer == Selected(store, lastID, Some(pred))
    ensures store.filtered.Some? ==> answer == store.filtered.value(lastID, pred)
    ensures store.filtered.None? ==> FilteredAnswer(answer, store.after(lastID), pred)
  {
    if store.filtered.Some? {
      return store.filtered.value(lastID, pred);
    }
    answer := store.after(lastID);
    match answer
    case Unavailable =>
    case Found(all) =>
      var events := SelectMatching(all, pred);
      answer := Found(events);
  }

  /** The fallback filter; a panicking predicate counts as no match. */
  method SelectMatching(all: seq<Event>, pred: Event -> Verdict) returns (events: seq<Event>)
    ensures events == Filter(all, Matching(pred)) && YesOnly(events, all, pred)
  {
    events := [];
    for i := 0 to |all|
      invariant events == Filter(all[..i], Matching(pred))
    {
      assert all[..i + 1] == all[..i] + [all[i]];
      FilterSnoc(all[..i], all[i], Matching(pred));
      if pred(all[i]) == Yes {
        events := events + [all[i]];
      }
    }
    assert all[..|all|] == all;
    MatchingIsYes(all, pred);
  }

  // ---------------------------------------------------- the store's contract

  /** What a store holds, and how its IDs are ordered. */
  datatype Shelf = Shelf(held: set<Event>, rank: bytes -> int, knows: bytes -> bool)

  function RankOf(shelf: Shelf): Event -> int {
    (e: Event) => shelf.rank(e.id)
  }

  /** The events strictly after `lastID`; none when it is unknown. */
  ghost predicate Behind(shelf: Shelf, lastID: bytes, e: Event) {
    shelf.knows(lastID) && e in shelf.held && shelf.rank(e.id) > shelf.rank(lastID)
  }

  /** `EventStore.EventsAfter`: exactly the events after `lastID`, in ascending order. */
  ghost predicate AnswersAfter(answer: Answer, shelf: Shelf, lastID: bytes) {
    answer.Found? ==>
      && Ascending(answer.events, RankOf(shelf))
      && forall e :: e in answer.events <==> Behind(shelf, lastID, e)
  }

  predicate Satisfies(pred: Event -> Verdict, e: Event) {
    pred(e) == Yes
  }

  /** What a store does with a predicate that panics is not specified. */
  ghost predicate Total(pred: Event -> Verdict) {
    forall e :: pred(e) != Panics
  }

  /** `FilteredEventStore.EventsAfterFiltered`: those of them that satisfy the predicate, in ascending order. */
  ghost predicate AnswersFiltered(answer: Answer, shelf: Shelf, lastID: bytes, pred: Event -> Verdict) {
    answer.Found? && Total(pred) ==>
      && Ascending(answer.events, RankOf(shelf))
      && forall e :: e in answer.events <==> Behind(shelf, lastID, e) && Satisfies(pred, e)
  }

  ghost predicate MeetsContract(store: EventStore, shelf: Shelf, lastID: bytes, pred: Event -> Verdict) {
    && AnswersAfter(store.after(lastID), shelf, lastID)
    && (store.filtered.Some? ==> AnswersFiltered(store.filtered.value(lastID, pred), shelf, lastID, pred))
  }

  /** Both queries are answered, or the store is down for both. */
  predicate SameAvailability(store: EventStore, lastID: bytes, pred: Event -> Verdict) {
    store.filtered.Some? && (store.filtered.value(lastID, pred).Found? <==> store.after(lastID).Found?)
  }

  /** The contract leaves one answer: what the fallback selects. */
  lemma PushedDownIsFiltered(store: EventStore, shelf: Shelf, lastID: bytes, pred: Event -> Verdict)
    requires MeetsContract(store, shelf, lastID, pred) && Total(pred)
    requires store.filtered.Some? && store.filtered.value(lastID, pred).Found? && store.after(lastID).Found?
    ensures store.filtered.value(lastID, pred).events == Filter(store.after(lastID).events, Matching(pred))
  {
    var all, pushed := store.after(lastID).events, store.filtered.value(lastID, pred).events;
    FilterMembers(all, Matching(pred));
    FilterAscending(all, Matching(pred), RankOf(shelf));
    forall e ensures e in pushed <==> e in Filter(all, Matching(pred)) {
      assert Behind(shelf, lastID, e) <==> e in all;
      assert Satisfies(pred, e) <==> Matching(pred)(e);
    }
    AscendingUnique(pushed, Filter(all, Matching(pred)), RankOf(shelf));
  }

  /**
   * With a store that meets its contract the push-down path and the in-memory
   * fallback write the same bytes and return the same count, unless a write fails.
   */
  lemma {:induction false} PushDownAgrees(store: EventStore, shelf: Shelf, lastID: bytes, pred: Event -> Verdict, before: bytes,
                       now: bytes, count: nat, err: Option<ReplayError>, now': bytes, count': nat, err': Option<ReplayError>)
    requires MeetsContract(store, shelf, lastID, pred) && Total(pred) && SameAvailability(store, lastID, pred)
    requires Replayed(Selected(store, lastID, Some(pred)), before, now, count, err, 0)
    requires Replayed(Selected(store.(filtered := None), lastID, Some(pred)), before, now', count', err', 0)
    requires err != Some(SendFailed) && err' != Some(SendFailed)
    ensures now == now' && count == count' && err == err'
  {
    if store.after(lastID).Found? {
      PushedDownIsFiltered(store, shelf, lastID, pred);
    }
    assert Selected(store, lastID, Some(pred)) == Selected(store.(filtered := None), lastID, Some(pred));
  }

  // -------------------------------------------------------------- accounting

  function AfterItems(st: P.State, items: seq<Item>): P.State
    decreases |items|
  {
    if items == [] then st else AfterItems(After(st, items[0]), items[1..])
  }

  lemma {:induction false} AfterItemsIs(st: P.State, items: seq<Item>)
    requires Clean(st)
    ensures Clean(AfterItems(st, items))
    ensures AfterItems(st, items).events == st.events + Expected(items, st.lastID, st.retry)
    decreases |items|
  {
    if items != [] {
      AfterItemsIs(After(st, items[0]), items[1..]);
      ExpectedFront(st, items);
    }
  }

  /** Reading whole items leaves the parser between frames, whatever follows. */
  lemma {:induction false} ReadItemsThen(st: P.State, items: seq<Item>, rest: bytes)
    requires Clean(st) && FaithfulItems(items)
    ensures P.Run(st, StreamLines(Wire(items) + rest)) == P.Run(AfterItems(st, items), StreamLines(rest))
    decreases |items|
  {
    if items == [] {
      assert Wire(items) + rest == rest;
    } else {
      var i, others := items[0], items[1..];
      Regroup(ItemBytes(i), Wire(others), rest);
      ReadItem(st, i, Wire(others) + rest);
      ReadItemsThen(After(st, i), others, rest);
    }
  }

  lemma {:induction false} ExpectedCount(items: seq<Item>, lastID: bytes, retry: uint)
    requires forall k :: 0 <= k < |items| ==> items[k].Sent?
    ensures |Expected(items, lastID, retry)| == |items|
    decreases |items|
  {
    if items != [] {
      ExpectedCount(items[1..], IdAfter(items[0], lastID), RetryAfter(items[0], retry));
    }
  }

  /** What the client decodes when `rest` follows the frames of `events`. */
  lemma DecodeThen(events: seq<Event>, rest: bytes)
    requires forall k :: 0 <= k < |events| ==> Faithful(events[k])
    requires rest == [] || rest[0] < 128
    ensures var st := AfterItems(P.INITIAL, Sends(events));
            && Clean(st) && |st.events| == |events|
            && Decode.Events(WireOf(events) + rest) == P.Run(st, StreamLines(rest)).events
  {
    var items := Sends(events);
    WireIsAscii(items);
    WireHasNoBOM(Wire(items) + rest);
    ReadItemsThen(P.INITIAL, items, rest);
    AfterItemsIs(P.INITIAL, items);
    ExpectedCount(items, [], 0);
  }

  lemma {:induction false} PartAccounting(st: P.State, i: Item, part: bytes, accepted: nat)
    requires Clean(st) && i.Sent? && FaithfulItem(i) && accepted <= |ItemBytes(i)| && part == ItemBytes(i)[..accepted]
    ensures |P.Run(st, StreamLines(part)).events| == |st.events| + if accepted < |ItemBytes(i)| then 0 else 1
  {
    if accepted < |ItemBytes(i)| {
      CutItem(st, i, accepted);
    } else {
      assert ItemBytes(i) + [] == part;
      ReadItem(st, i, []);
    }
  }

  /**
   * A replay that fails while sending event `count`: the client decodes `count`
   * events if the failing write accepted less than the whole frame, and one more
   * if the writer took the frame and reported an error all the same.
   */
  lemma {:induction false} FailedReplayAccounting(events: seq<Event>, count: nat, accepted: nat)
    requires count < |events| && accepted <= |Frame(events[count])|
    requires forall k :: 0 <= k < |events| ==> Faithful(events[k])
    ensures var wire := WireOf(events[..count]) + Frame(events[count])[..accepted];
            |Decode.Events(wire)| == if accepted < |Frame(events[count])| then count else count + 1
  {
    var i := Sent(events[count]);
    PartialWire(events[..count], i, ItemBytes(i)[..accepted], accepted);
  }

  lemma {:induction false} PartialWire(events: seq<Event>, i: Item, part: bytes, accepted: nat)
    requires forall k :: 0 <= k < |events| ==> Faithful(events[k])
    requires i.Sent? && FaithfulItem(i) && accepted <= |ItemBytes(i)| && part == ItemBytes(i)[..accepted]
    ensures |Decode.Events(WireOf(events) + part)| == |events| + if accepted < |ItemBytes(i)| then 0 else 1
  {
    PartIsAscii(i, part, accepted);
    DecodeThen(events, part);
    PartAccounting(AfterItems(P.INITIAL, Sends(events)), i, part, accepted);
  }

  lemma {:induction false} PartIsAscii(i: Item, part: bytes, accepted: nat)
    requires accepted <= |ItemBytes(i)| && part == ItemBytes(i)[..accepted]
    ensures part == [] || part[0] < 128
  {
    ItemIsAscii(i);
  }

  /** A successful replay is decoded in full. */
  lemma ReplayAccounting(events: seq<Event>)
    requires forall k :: 0 <= k < |events| ==> Faithful(events[k])
    ensures |Decode.Events(WireOf(events))| == |events|
  {
    var items := Sends(events);
    StreamRoundTrip(items);
    ExpectedCount(items, [], 0);
  }
}
