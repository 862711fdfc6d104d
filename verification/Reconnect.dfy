/**
 * Reconnection end to end: a client that resumes from the ID of the last event
 * it dispatched, a server that replays from the bounded store, connections cut
 * at any byte.
 */
module Reconnect {
  import opened Bytes
  import opened Decimal
  import opened Lines
  import opened Writer
  import opened RoundTrip
  import opened Filters
  import opened Store
  import R = Replay
  import P = Parser
  import Decode

  /** What identifies a delivery to the application: type, data lines and ID. */
  datatype Delivery = Delivery(typ: bytes, dataLines: seq<bytes>, id: bytes)

  function Deliver(e: P.Event): Delivery {
    Delivery(e.typ, e.dataLines, e.id)
  }

  function Intend(e: Event): Delivery {
    Delivery(e.name, SplitLines(e.data), e.id)
  }

  function Delivered(events: seq<P.Event>): (r: seq<Delivery>)
    ensures |r| == |events| && forall k :: 0 <= k < |r| ==> r[k] == Deliver(events[k])
  {
    seq(|events|, k requires 0 <= k < |events| => Deliver(events[k]))
  }

  function Intended(events: seq<Event>): (r: seq<Delivery>)
    ensures |r| == |events| && forall k :: 0 <= k < |r| ==> r[k] == Intend(events[k])
  {
    seq(|events|, k requires 0 <= k < |events| => Intend(events[k]))
  }

  /** The events among the items of a stream. */
  function EventsOf(items: seq<Item>): seq<Event>
    decreases |items|
  {
    if items == [] then [] else (if items[0].Sent? then [items[0].event] else []) + EventsOf(items[1..])
  }

  lemma DeliveredFront(e: P.Event, events: seq<P.Event>)
    ensures Delivered([e] + events) == [Deliver(e)] + Delivered(events)
  {
  }

  lemma IntendedFront(e: Event, events: seq<Event>)
    ensures Intended([e] + events) == [Intend(e)] + Intended(events)
  {
  }

  ghost predicate AllHaveIDs(items: seq<Item>) {
    forall k :: 0 <= k < |items| && items[k].Sent? ==> items[k].event.id != []
  }

  /** When every event carries an ID, what arrives is what was meant, retry frames or not. */
  lemma {:induction false} ExpectedDeliveries(items: seq<Item>, lastID: bytes, retry: uint)
    requires AllHaveIDs(items)
    ensures Delivered(Expected(items, lastID, retry)) == Intended(EventsOf(items))
    decreases |items|
  {
    if items != [] {
      var i, rest := items[0], items[1..];
      var lastID', retry' := IdAfter(i, lastID), RetryAfter(i, retry);
      ExpectedDeliveries(rest, lastID', retry');
      if i.Sent? {
        DeliveredFront(Decoded(i.event, lastID', retry'), Expected(rest, lastID', retry'));
        IntendedFront(i.event, EventsOf(rest));
      } else {
        assert [] + Expected(rest, lastID', retry') == Expected(rest, lastID', retry');
        assert [] + EventsOf(rest) == EventsOf(rest);
      }
    }
  }

  lemma {:induction false} EventsOfTake(items: seq<Item>, m: nat)
    requires m <= |items|
    ensures EventsOf(items[..m]) <= EventsOf(items)
    decreases |items|
  {
    if m > 0 {
      EventsOfTake(items[1..], m - 1);
      assert items[..m][1..] == items[1..][..m - 1];
    }
  }

  // ----------------------------------------------------------------- sessions

  /** Everything published so far, the store's capacity, and what the client has dispatched. */
  datatype Session = Session(published: seq<Event>, capacity: nat, received: seq<P.Event>)

  /** The Last-Event-ID a client sends: none before its first event. */
  function LastID(received: seq<P.Event>): bytes {
    if received == [] then [] else received[|received| - 1].id
  }

  /** `LastEventIDFromRequest`: a malformed header counts as none. */
  function RequestedID(header: bytes): (id: bytes)
    ensures id == if 13 in header || 10 in header || 0 in header then [] else header
  {
    match ParseEventID(header)
    case Some(id) => id
    case None => []
  }

  /** What the server replays to this client. */
  function Missed(s: Session): seq<Event> {
    NewerEvents(LastN(s.published, s.capacity), LastSeq(RequestedID(LastID(s.received))))
  }

  /**
   * A connection. The server writes `items`: the replayed events, then `live`
   * events published meanwhile, with heartbeats and retry frames anywhere. The
   * client gets the first `cut` bytes.
   */
  datatype Step = Publish(event: Event) | Connect(items: seq<Item>, live: seq<Event>, cut: nat)

  /** Numbered in ascending order, with names and IDs that survive the wire. */
  ghost predicate Publishable(events: seq<Event>) {
    Numbered(events) && forall k :: 0 <= k < |events| ==> Faithful(events[k])
  }

  ghost predicate Enabled(s: Session, step: Step) {
    match step
    case Publish(e) => Publishable(s.published + [e])
    case Connect(items, live, cut) =>
      && EventsOf(items) == Missed(s) + live
      && FaithfulItems(items) && Publishable(s.published + live)
      && cut <= |Wire(items)|
  }

  /** The store still holds everything behind the last event the client dispatched. */
  predicate Retained(s: Session) {
    |s.published| - |s.received| <= s.capacity
  }

  function Apply(s: Session, step: Step): Session {
    match step
    case Publish(e) => s.(published := s.published + [e])
    case Connect(items, live, cut) =>
      if cut <= |Wire(items)|
      then s.(published := s.published + live, received := s.received + Decode.Events(Wire(items)[..cut]))
      else s
  }

  /** Exactly-once so far: the client holds a prefix of what was published. */
  ghost predicate InStep(s: Session) {
    && Publishable(s.published)
    && Delivered(s.received) <= Intended(s.published)
  }

  /** The client would resume behind the first `m` published events. */
  ghost predicate ResumesAt(s: Session, m: nat) {
    && Publishable(s.published) && m <= |s.published|
    && RequestedID(LastID(s.received)) == if m == 0 then [] else s.published[m - 1].id
  }

  lemma HeaderKept(e: Event)
    requires Faithful(e)
    ensures RequestedID(e.id) == e.id
  {
  }

  lemma LastReceivedResumes(s: Session, m: nat)
    requires Publishable(s.published) && 0 < m <= |s.published| && s.received != []
    requires Deliver(s.received[|s.received| - 1]) == Intend(s.published[m - 1])
    ensures ResumesAt(s, m)
  {
    HeaderKept(s.published[m - 1]);
  }

  lemma {:induction false} InStepResumes(s: Session)
    requires InStep(s)
    ensures ResumesAt(s, |s.received|)
  {
    var n := |s.received|;
    if n > 0 {
      assert Delivered(s.received)[n - 1] == Intended(s.published)[n - 1];
      LastReceivedResumes(s, n);
    }
  }

  lemma NothingSeenIsZero()
    ensures LastSeq(RequestedID([])) == 0
  {
  }

  /** Events up to position `m` are not newer than the last of them, the others are. */
  lemma NumberedSplit(events: seq<Event>, m: nat)
    requires Numbered(events) && m <= |events|
    ensures var last := if m == 0 then 0 else LastSeq(events[m - 1].id);
            && (forall i :: 0 <= i < m ==> !NewerThan(last)(events[i]))
            && (forall i :: m <= i < |events| ==> NewerThan(last)(events[i]))
  {
  }

  /** Where the replay starts: behind position `m`, or where retention begins. */
  function ReplayFrom(s: Session, m: nat): int {
    if |s.published| - s.capacity <= m then m else |s.published| - s.capacity
  }

  lemma {:induction false} MissedIsSuffix(s: Session, m: nat)
    requires ResumesAt(s, m)
    ensures m <= ReplayFrom(s, m) <= |s.published|
    ensures Missed(s) == s.published[ReplayFrom(s, m)..]
  {
    NothingSeenIsZero();
    var last := LastSeq(RequestedID(LastID(s.received)));
    NumberedSplit(s.published, m);
    RetainedSuffix(s.published, s.capacity, m, ReplayFrom(s, m), NewerThan(last));
  }

  lemma {:induction false} EventsOfCovers(items: seq<Item>, k: nat)
    requires k < |items| && items[k].Sent?
    ensures items[k].event in EventsOf(items)
    decreases |items|
  {
    if k > 0 {
      EventsOfCovers(items[1..], k - 1);
    }
  }

  lemma {:induction false} ConnectionHasIDs(s: Session, m: nat, step: Step)
    requires ResumesAt(s, m) && step.Connect? && Enabled(s, step)
    ensures AllHaveIDs(step.items)
  {
    MissedIsSuffix(s, m);
    var all := s.published + step.live;
    SplitLive(s.published, ReplayFrom(s, m), step.live);
    NumberedHasIDs(all);
    ItemsHaveIDs(step.items, all, ReplayFrom(s, m));
  }

  lemma SplitLive<T>(s: seq<T>, from: nat, live: seq<T>)
    requires from <= |s|
    ensures s[from..] + live == (s + live)[from..]
  {
  }

  lemma ItemsHaveIDs(items: seq<Item>, all: seq<Event>, from: nat)
    requires from <= |all| && EventsOf(items) == all[from..]
    requires forall i :: 0 <= i < |all| ==> all[i].id != []
    ensures AllHaveIDs(items)
  {
    forall k | 0 <= k < |items| && items[k].Sent? ensures items[k].event.id != [] {
      EventsOfCovers(items, k);
    }
  }

  lemma {:induction false} CompleteAll(items: seq<Item>)
    ensures CompleteItems(items, |Wire(items)|) == |items|
    decreases |items|
  {
    if items != [] {
      CompleteAll(items[1..]);
    }
  }

  /** What one connection delivers: a prefix of the replay and live events, all of it when uncut. */
  lemma {:induction false} ConnectionDelivers(s: Session, m: nat, step: Step)
    requires ResumesAt(s, m) && step.Connect? && Enabled(s, step)
    ensures var got := Delivered(Decode.Events(Wire(step.items)[..step.cut]));
            && got <= Intended(Missed(s) + step.live)
            && (step.cut == |Wire(step.items)| ==> got == Intended(Missed(s) + step.live))
  {
    var items, cut := step.items, step.cut;
    var whole := CompleteItems(items, cut);
    CutRoundTrip(items, cut);
    ConnectionHasIDs(s, m, step);
    ExpectedDeliveries(items[..whole], [], 0);
    EventsOfTake(items, whole);
    IntendedPrefix(EventsOf(items[..whole]), EventsOf(items));
    if cut == |Wire(items)| {
      CompleteAll(items);
      assert items[..whole] == items;
    }
  }

  lemma IntendedPrefix(a: seq<Event>, b: seq<Event>)
    requires a <= b
    ensures Intended(a) <= Intended(b)
  {
  }

  lemma IntendedConcat(a: seq<Event>, b: seq<Event>)
    ensures Intended(a + b) == Intended(a) + Intended(b)
  {
  }

  lemma DeliveredConcat(a: seq<P.Event>, b: seq<P.Event>)
    ensures Delivered(a + b) == Delivered(a) + Delivered(b)
  {
  }

  /** With the needed events retained, the replay joins on exactly where the client stopped. */
  lemma JoinsExactly(s: Session, live: seq<Event>)
    requires InStep(s) && Retained(s)
    ensures Delivered(s.received) + Intended(Missed(s) + live) == Intended(s.published + live)
  {
    var m := |s.received|;
    InStepResumes(s);
    MissedIsSuffix(s, m);
    PrefixIsTake(Delivered(s.received), Intended(s.published));
    IntendedSplit(s.published, m, live);
  }

  lemma PrefixIsTake<T>(a: seq<T>, b: seq<T>)
    requires a <= b
    ensures a == b[..|a|]
  {
  }

  lemma IntendedSplit(events: seq<Event>, m: nat, live: seq<Event>)
    requires m <= |events|
    ensures Intended(events)[..m] + Intended(events[m..] + live) == Intended(events + live)
  {
  }

  lemma {:induction false} StepStaysInStep(s: Session, step: Step)
    requires InStep(s) && Enabled(s, step) && (step.Connect? ==> Retained(s))
    ensures InStep(Apply(s, step))
  {
    match step
    case Publish(e) =>
      IntendedConcat(s.published, [e]);
    case Connect(items, live, cut) =>
      var fresh' := Decode.Events(Wire(items)[..cut]);
      InStepResumes(s);
      ConnectionDelivers(s, |s.received|, step);
      JoinsExactly(s, live);
      DeliveredConcat(s.received, fresh');
      PrefixBehind(Delivered(s.received), Delivered(fresh'), Intended(Missed(s) + live));
  }

  lemma PrefixBehind<T>(a: seq<T>, b: seq<T>, c: seq<T>)
    requires b <= c
    ensures a + b <= a + c
  {
  }

  // --------------------------------------------------------------------- runs

  ghost predicate ValidRun(s: Session, run: seq<Step>)
    decreases |run|
  {
    run == [] || (Enabled(s, run[0]) && ValidRun(Apply(s, run[0]), run[1..]))
  }

  /** No connection of the run comes after something it needs was evicted. */
  predicate NothingEvicted(s: Session, run: seq<Step>)
    decreases |run|
  {
    run == [] || ((run[0].Connect? ==> Retained(s)) && NothingEvicted(Apply(s, run[0]), run[1..]))
  }

  function Exec(s: Session, run: seq<Step>): Session
    decreases |run|
  {
    if run == [] then s else Exec(Apply(s, run[0]), run[1..])
  }

  /**
   * Exactly-once delivery: after any run of publications and connections, each
   * cut at any byte, the client has dispatched a prefix of the published events,
   * in order, without gap and without duplicate.
   */
  lemma {:induction false} ExactlyOnce(s: Session, run: seq<Step>)
    requires InStep(s) && ValidRun(s, run) && NothingEvicted(s, run)
    ensures InStep(Exec(s, run))
    decreases |run|
  {
    if run != [] {
      StepStaysInStep(s, run[0]);
      ExactlyOnce(Apply(s, run[0]), run[1..]);
    }
  }

  /** In particular from the very first connection on. */
  lemma ExactlyOnceFromStart(capacity: nat, run: seq<Step>)
    requires ValidRun(Session([], capacity, []), run) && NothingEvicted(Session([], capacity, []), run)
    ensures var s := Exec(Session([], capacity, []), run);
            Delivered(s.received) <= Intended(s.published)
  {
    ExactlyOnce(Session([], capacity, []), run);
  }

  /**
   * An uncut connection brings the client fully up to date if and only if the
   * store still retained everything the client was missing.
   */
  lemma {:induction false} CaughtUpIff(s: Session, step: Step)
    requires InStep(s) && step.Connect? && Enabled(s, step) && step.cut == |Wire(step.items)|
    ensures Delivered(Apply(s, step).received) == Intended(Apply(s, step).published) <==> Retained(s)
  {
    InStepResumes(s);
    ConnectionDelivers(s, |s.received|, step);
    var fresh' := Decode.Events(Wire(step.items)[..step.cut]);
    DeliveredConcat(s.received, fresh');
    if Retained(s) {
      JoinsExactly(s, step.live);
    } else {
      MissedIsSuffix(s, |s.received|);
      assert |Missed(s)| == s.capacity;
      assert |Delivered(fresh')| == s.capacity + |step.live|;
    }
  }

  // -------------------------------------------------- whatever was evicted

  /** `a` consists of the elements of `b` at the strictly ascending positions `at`. */
  ghost predicate Picks<T>(a: seq<T>, b: seq<T>, at: seq<nat>) {
    && |at| == |a|
    && (forall i, j :: 0 <= i < j < |at| ==> at[i] < at[j])
    && forall k :: 0 <= k < |at| ==> at[k] < |b| && a[k] == b[at[k]]
  }

  /** The received events are published ones, in order, each at most once. */
  ghost predicate Picked(s: Session, at: seq<nat>) {
    Publishable(s.published) && Picks(Delivered(s.received), Intended(s.published), at)
  }

  /** The position behind the last one picked. */
  function Behind(at: seq<nat>): nat {
    if at == [] then 0 else at[|at| - 1] + 1
  }

  lemma LastPicked<T>(a: seq<T>, b: seq<T>, at: seq<nat>)
    requires Picks(a, b, at) && at != []
    ensures |a| == |at| && 0 < Behind(at) <= |b| && a[|a| - 1] == b[Behind(at) - 1]
  {
  }

  lemma {:induction false} PickedResumes(s: Session, at: seq<nat>)
    requires Picked(s, at)
    ensures ResumesAt(s, Behind(at))
  {
    if at != [] {
      var m := Behind(at);
      LastPicked(Delivered(s.received), Intended(s.published), at);
      LastReceivedResumes(s, m);
    }
  }

  function Range(from: nat, n: nat): (r: seq<nat>)
    ensures |r| == n && forall k :: 0 <= k < n ==> r[k] == from + k
  {
    seq(n, k requires 0 <= k < n => from + k)
  }

  /** What comes next, from any position behind the last one, can be picked as well. */
  lemma PicksMore<T>(a: seq<T>, b: seq<T>, at: seq<nat>, more: seq<T>, from: nat, got: seq<T>)
    requires Picks(a, b, at) && Behind(at) <= from <= |b| && got <= (b + more)[from..]
    ensures Picks(a + got, b + more, at + Range(from, |got|))
  {
    forall i | 0 <= i < |at| ensures at[i] < from {
      assert i < |at| - 1 ==> at[i] < at[|at| - 1];
    }
    forall k | 0 <= k < |got| ensures from + k < |b + more| && got[k] == (b + more)[from + k] {
      assert got[k] == (b + more)[from..][k];
    }
  }

  lemma IntendedDrop(events: seq<Event>, from: nat)
    requires from <= |events|
    ensures Intended(events[from..]) == Intended(events)[from..]
  {
  }

  lemma {:induction false} StepPicks(s: Session, at: seq<nat>, step: Step) returns (at': seq<nat>)
    requires Picked(s, at) && Enabled(s, step)
    ensures Picked(Apply(s, step), at')
  {
    match step
    case Publish(e) =>
      IntendedConcat(s.published, [e]);
      at' := at;
    case Connect(items, live, cut) =>
      var got := Decode.Events(Wire(items)[..cut]);
      var m := Behind(at);
      PickedResumes(s, at);
      ConnectionDelivers(s, m, step);
      MissedIsSuffix(s, m);
      SplitLive(s.published, ReplayFrom(s, m), live);
      IntendedDrop(s.published + live, ReplayFrom(s, m));
      IntendedConcat(s.published, live);
      DeliveredConcat(s.received, got);
      PicksMore(Delivered(s.received), Intended(s.published), at, Intended(live), ReplayFrom(s, m), Delivered(got));
      at' := at + Range(ReplayFrom(s, m), |got|);
  }

  lemma {:induction false} RunPicks(s: Session, at: seq<nat>, run: seq<Step>) returns (at': seq<nat>)
    requires Picked(s, at) && ValidRun(s, run)
    ensures Picked(Exec(s, run), at')
    decreases |run|
  {
    at' := at;
    if run != [] {
      at' := StepPicks(s, at, run[0]);
      at' := RunPicks(Apply(s, run[0]), at', run[1..]);
    }
  }

  /**
   * At most once, unconditionally: whatever the store evicted and wherever the
   * connections were cut, the received events are published ones at ascending
   * positions, so none is repeated and none is out of order.
   */
  lemma AtMostOnceInOrder(capacity: nat, run: seq<Step>)
    requires ValidRun(Session([], capacity, []), run)
    ensures exists at :: Picked(Exec(Session([], capacity, []), run), at)
  {
    var at := RunPicks(Session([], capacity, []), [], run);
  }

  // ------------------------------------------------- the replay as a connection

  lemma {:induction false} EventsOfSends(events: seq<Event>)
    ensures EventsOf(R.Sends(events)) == events
    decreases |events|
  {
    if events != [] {
      EventsOfSends(events[1..]);
      assert R.Sends(events)[1..] == R.Sends(events[1..]);
      HeadTail(events);
    }
  }

  /** Replaying from the store, and nothing else, is one of the connections above. */
  lemma {:induction false} ReplayConnects(s: Session, m: nat, cut: nat)
    requires ResumesAt(s, m) && cut <= |R.WireOf(Missed(s))|
    ensures Enabled(s, Connect(R.Sends(Missed(s)), [], cut))
  {
    MissedIsSuffix(s, m);
    EventsOfSends(Missed(s));
    NothingBehind(Missed(s));
    NothingBehind(s.published);
    SendsFaithful(s.published, ReplayFrom(s, m));
  }

  lemma NothingBehind<T>(a: seq<T>)
    ensures a + [] == a
  {
  }

  lemma SendsFaithful(events: seq<Event>, from: nat)
    requires from <= |events| && forall k :: 0 <= k < |events| ==> Faithful(events[k])
    ensures FaithfulItems(R.Sends(events[from..]))
  {
  }

  /** The ring store meets the contract of an event store, its IDs ordered by their numbers. */
  function ShelfOf(contents: seq<Event>): R.Shelf {
    R.Shelf((set e | e in contents), (id: bytes) => LastSeq(id), (id: bytes) => true)
  }

  lemma RingStoreMeetsContract(contents: seq<Event>, lastID: bytes)
    requires Numbered(contents)
    ensures R.AnswersAfter(R.Found(NewerEvents(contents, LastSeq(lastID))), ShelfOf(contents), lastID)
  {
    var shelf, newer := ShelfOf(contents), NewerThan(LastSeq(lastID));
    FilterMembers(contents, newer);
    forall e ensures e in Filter(contents, newer) <==> R.Behind(shelf, lastID, e) {
      if e in contents {
        var i :| 0 <= i < |contents| && contents[i] == e;
        assert Newer(e, 0);
      }
    }
    FilterAscending(contents, newer, R.RankOf(shelf));
  }

  // ------------------------------------------------------ reconnection times

  /** The retry interval in force after `events`. */
  function InForce(items: seq<Item>, retry: uint): uint
    decreases |items|
  {
    if items == [] then retry else InForce(items[1..], RetryAfter(items[0], retry))
  }

  function IdInForce(items: seq<Item>, lastID: bytes): bytes
    decreases |items|
  {
    if items == [] then lastID else IdInForce(items[1..], IdAfter(items[0], lastID))
  }

  lemma {:induction false} ExpectedConcat(a: seq<Item>, b: seq<Item>, lastID: bytes, retry: uint)
    ensures Expected(a + b, lastID, retry) == Expected(a, lastID, retry) + Expected(b, IdInForce(a, lastID), InForce(a, retry))
    decreases |a|
  {
    if a == [] {
      assert a + b == b;
    } else {
      var lastID', retry' := IdAfter(a[0], lastID), RetryAfter(a[0], retry);
      ConcatTail(a, b);
      ExpectedConcat(a[1..], b, lastID', retry');
      Regroup(Dispatches(a[0], lastID', retry'), Expected(a[1..], lastID', retry'),
              Expected(b, IdInForce(a[1..], lastID'), InForce(a[1..], retry')));
    }
  }

  predicate SetsRetry(i: Item) {
    i.Retry? || (i.Sent? && i.event.retry > 0)
  }

  /** `first` is the position of the first event, or the length when there is none. */
  ghost predicate FirstEvent(items: seq<Item>, first: nat) {
    && first <= |items|
    && (forall j :: 0 <= j < first ==> !items[j].Sent?)
    && (first < |items| ==> items[first].Sent?)
  }

  /** The first event does not depend on an ID or an interval that differs. */
  ghost predicate StandsAlone(items: seq<Item>, first: nat, sameID: bool, sameRetry: bool)
    requires first < |items| && items[first].Sent?
  {
    && (sameID || items[first].event.id != [])
    && (sameRetry || exists j :: 0 <= j <= first && SetsRetry(items[j]))
  }

  lemma ExpectedTail(items: seq<Item>, lastID: bytes, retry: uint)
    requires items != [] && !items[0].Sent?
    ensures Expected(items, lastID, retry) == Expected(items[1..], lastID, RetryAfter(items[0], retry))
  {
    NothingAhead(Expected(items[1..], lastID, RetryAfter(items[0], retry)));
  }

  lemma NothingAhead<T>(a: seq<T>)
    ensures [] + a == a
  {
  }

  lemma {:induction false} NoEventsExpected(items: seq<Item>, lastID: bytes, retry: uint)
    requires forall j :: 0 <= j < |items| ==> !items[j].Sent?
    ensures Expected(items, lastID, retry) == []
    decreases |items|
  {
    if items != [] {
      ExpectedTail(items, lastID, retry);
      NoEventsExpected(items[1..], lastID, RetryAfter(items[0], retry));
    }
  }

  lemma FirstReadsAlike(items: seq<Item>, id1: bytes, retry1: uint, id2: bytes, retry2: uint)
    requires items != [] && items[0].Sent?
    ensures Expected(items, id1, retry1) == Expected(items, id2, retry2) <==>
            StandsAlone(items, 0, id1 == id2, retry1 == retry2)
  {
    var i := items[0];
    var a, b := Expected(items, id1, retry1), Expected(items, id2, retry2);
    assert a[0] == Decoded(i.event, IdAfter(i, id1), RetryAfter(i, retry1));
    assert b[0] == Decoded(i.event, IdAfter(i, id2), RetryAfter(i, retry2));
    assert SetsRetry(items[0]) <==> i.event.retry > 0;
  }

  lemma StandsAloneTail(items: seq<Item>, first: nat, sameID: bool, sameRetry: bool)
    requires FirstEvent(items, first) && 0 < first < |items|
    ensures StandsAlone(items, first, sameID, sameRetry) <==>
            StandsAlone(items[1..], first - 1, sameID, sameRetry || SetsRetry(items[0]))
  {
    var tail := items[1..];
    if j :| 0 <= j <= first && SetsRetry(items[j]) {
      assert j > 0 ==> SetsRetry(tail[j - 1]);
    }
    if j :| 0 <= j <= first - 1 && SetsRetry(tail[j]) {
      assert SetsRetry(items[j + 1]);
    }
  }

  /** Two connections read the items alike if and only if their first event reads alike. */
  lemma {:induction false} ReadsAlike(items: seq<Item>, first: nat, id1: bytes, retry1: uint, id2: bytes, retry2: uint)
    requires FirstEvent(items, first)
    ensures Expected(items, id1, retry1) == Expected(items, id2, retry2) <==>
            first == |items| || StandsAlone(items, first, id1 == id2, retry1 == retry2)
    decreases first
  {
    if first == |items| {
      NoEventsExpected(items, id1, retry1);
      NoEventsExpected(items, id2, retry2);
    } else if first == 0 {
      FirstReadsAlike(items, id1, retry1, id2, retry2);
    } else {
      ExpectedTail(items, id1, retry1);
      ExpectedTail(items, id2, retry2);
      ReadsAlike(items[1..], first - 1, id1, RetryAfter(items[0], retry1), id2, RetryAfter(items[0], retry2));
      StandsAloneTail(items, first, id1 == id2, retry1 == retry2);
    }
  }

  /**
   * ID and interval in force are connection state that a new connection starts
   * without. What the client decodes from `a` and then, on a new connection, from
   * `b` is what it decodes from the uninterrupted stream if and only if `b` holds
   * no event or its first one does not depend on what `a` left in force.
   */
  lemma {:induction false} UninterruptedIff(a: seq<Item>, b: seq<Item>, first: nat)
    requires FaithfulItems(a) && FaithfulItems(b) && FirstEvent(b, first)
    ensures Decode.Events(Wire(a)) + Decode.Events(Wire(b)) == Decode.Events(Wire(a + b)) <==>
            first == |b| || StandsAlone(b, first, IdInForce(a, []) == [], InForce(a, 0) == 0)
  {
    StreamRoundTrip(a);
    StreamRoundTrip(b);
    StreamRoundTrip(a + b);
    ExpectedConcat(a, b, [], 0);
    ReadsAlike(b, first, IdInForce(a, []), InForce(a, 0), [], 0);
    SamePrefix(Expected(a, [], 0), Expected(b, [], 0), Expected(b, IdInForce(a, []), InForce(a, 0)));
  }

  lemma SamePrefix<T>(a: seq<T>, b: seq<T>, c: seq<T>)
    ensures a + b == a + c <==> b == c
  {
    if a + b == a + c {
      assert b == (a + b)[|a|..] && c == (a + c)[|a|..];
    }
  }
}
