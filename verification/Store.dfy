/** The bounded replay store of the DataStar example (`memStore`). */
module Store {
  import opened Bytes
  import opened Decimal
  import opened Writer
  import opened Filters

  /** The last `n` elements, or all of them when there are fewer. */
  function LastN<T>(s: seq<T>, n: nat): (r: seq<T>)
    ensures |r| == if |s| < n then |s| else n
  {
    if |s| <= n then s else s[|s| - n..]
  }

  lemma LastNAt<T>(s: seq<T>, n: nat, k: nat)
    requires k < |LastN(s, n)|
    ensures LastN(s, n)[k] == s[|s| - |LastN(s, n)| + k]
  {
  }

  /** The number a last-event ID stands for; anything unreadable counts as zero. */
  function LastSeq(id: bytes): int {
    match Atoi(id)
    case Some(n) => n
    case None => 0
  }

  /** The event has a readable number above `last`. */
  predicate Newer(e: Event, last: int) {
    Atoi(e.id).Some? && Atoi(e.id).value > last
  }

  function NewerThan(last: int): Event -> bool {
    e => Newer(e, last)
  }

  /** The newer events, in order. */
  function NewerEvents(events: seq<Event>, last: int): seq<Event> {
    Filter(events, NewerThan(last))
  }

  class MemStore {
    var data: array<Event>
    var len: nat
    const cap: nat

    constructor (capacity: nat)
      ensures Valid() && fresh(data) && cap == capacity && Contents() == []
    {
      cap := capacity;
      data := new Event[capacity];
      len := 0;
    }

    ghost predicate Valid()
      reads this
    {
      len <= cap && len <= data.Length
    }

    /** The retained events, oldest first. */
    ghost function Contents(): seq<Event>
      requires Valid()
      reads this, data
    {
      data[..len]
    }

    /** Append, then evict by copying the tail down over the head, in place. */
    method Append(e: Event)
      requires Valid()
      modifies this, data
      ensures Valid() && (data == old(data) || fresh(data))
      ensures Contents() == LastN(old(Contents()) + [e], cap)
    {
      if len == data.Length {
        Grow();
      }
      ghost var all := old(Contents()) + [e];
      data[len] := e;
      len := len + 1;
      assert data[..len] == all;
      if len > cap {
        Evict();
      }
    }

    /** Only the last `cap` events stay: the tail is copied over the head. */
    method Evict()
      requires cap < len <= data.Length
      modifies this`len, data
      ensures len == cap && data[..len] == old(data[..len][len - cap..])
    {
      SliceOfPrefix(data[..], len, len - cap);
      CopyDown(data, len - cap, cap);
      len := cap;
    }

    /** A larger backing array; by how much is up to the runtime. */
    method Grow()
      requires len == data.Length
      modifies this`data
      ensures fresh(data) && data.Length > len
      ensures data[..len] == old(data[..len])
    {
      var source := data;
      var size: nat :| size > source.Length;
      var larger := new Event[size];
      for i := 0 to source.Length
        invariant larger[..i] == source[..i]
      {
        larger[i] := source[i];
      }
      data := larger;
    }

    /** `EventsAfter` as the loop computes it. */
    method EventsAfter(lastID: bytes) returns (result: seq<Event>)
      requires Valid()
      ensures result == NewerEvents(Contents(), LastSeq(lastID))
      ensures forall e :: e in result <==>
              e in Contents() && Atoi(e.id).Some? && Atoi(e.id).value > (if Atoi(lastID).Some? then Atoi(lastID).value else 0)
    {
      var last := match Atoi(lastID) case Some(n) => n case None => 0;
      result := [];
      for i := 0 to len
        invariant result == NewerEvents(data[..i], last)
      {
        assert data[..i + 1][..i] == data[..i];
        var number := Atoi(data[i].id);
        if number.Some? {
          if number.value > last {
            result := result + [data[i]];
          }
        }
      }
      NewerMembers(Contents(), last);
    }
  }

  /** What is selected, in terms of the numbers on the events. */
  lemma NewerMembers(events: seq<Event>, last: int)
    ensures forall e :: e in NewerEvents(events, last) <==> e in events && Atoi(e.id).Some? && Atoi(e.id).value > last
  {
    FilterMembers(events, NewerThan(last));
  }

  /**
   * An event without a readable number is never returned, and after an
   * unreadable last ID, empty or not, all positive numbers are.
   */
  lemma UnreadableIDs(events: seq<Event>, lastID: bytes)
    ensures forall e :: e in NewerEvents(events, LastSeq(lastID)) ==> Atoi(e.id).Some?
    ensures Atoi(lastID).None? ==>
            forall e :: e in NewerEvents(events, LastSeq(lastID)) <==> e in events && Atoi(e.id).Some? && Atoi(e.id).value > 0
  {
    NewerMembers(events, LastSeq(lastID));
  }

  lemma SliceOfPrefix<T>(s: seq<T>, n: nat, k: nat)
    requires k <= n <= |s|
    ensures s[..n][k..] == s[k..n]
  {
  }

  /** Go's `copy` towards the front of the same array: source and target overlap. */
  method CopyDown(a: array<Event>, from: nat, n: nat)
    requires from + n <= a.Length
    modifies a
    ensures a[..n] == old(a[from..from + n])
  {
    ghost var was := a[..];
    for i := 0 to n
      invariant forall k :: 0 <= k < i ==> a[k] == was[from + k]
      invariant forall k :: i <= k < a.Length ==> a[k] == was[k]
    {
      a[i] := a[from + i];
    }
  }

  // -------------------------------------------------------------- properties

  /** The contents after a sequence of appends. */
  function Appended<T>(contents: seq<T>, events: seq<T>, cap: nat): seq<T> {
    if events == [] then contents
    else LastN(Appended(contents, events[..|events| - 1], cap) + [events[|events| - 1]], cap)
  }

  /** After any appends exactly the last `cap` events are retained, in order. */
  lemma {:induction false} RetainsLast<T>(events: seq<T>, cap: nat)
    ensures Appended([], events, cap) == LastN(events, cap)
    decreases |events|
  {
    if events != [] {
      var n := |events| - 1;
      RetainsLast(events[..n], cap);
      LastNSnoc(events[..n], events[n], cap);
      assert events == events[..n] + [events[n]];
    }
  }

  lemma LastNSnoc<T>(s: seq<T>, x: T, cap: nat)
    ensures LastN(LastN(s, cap) + [x], cap) == LastN(s + [x], cap)
  {
  }

  /** Positive numbers in ascending order. */
  ghost predicate Numbered(events: seq<Event>) {
    && (forall i :: 0 <= i < |events| ==> Newer(events[i], 0))
    && forall i, j :: 0 <= i < j < |events| ==> Atoi(events[i].id).value < Atoi(events[j].id).value
  }

  /** Querying the retained part for what follows position `m` gives a suffix of the whole. */
  lemma RetainedSuffix<T>(s: seq<T>, cap: nat, m: nat, from: nat, p: T -> bool)
    requires m <= |s|
    requires forall i :: 0 <= i < m ==> !p(s[i])
    requires forall i :: m <= i < |s| ==> p(s[i])
    requires from == if |s| - cap <= m then m else |s| - cap
    ensures Filter(LastN(s, cap), p) == s[from..]
  {
    var j := if |s| <= cap then 0 else |s| - cap;
    var kept := LastN(s, cap);
    assert kept == s[j..];
    FilterSuffix(kept, from - j, p);
    assert s[j..][from - j..] == s[from..];
  }

  lemma NumberedHasIDs(events: seq<Event>)
    requires Numbered(events)
    ensures forall i :: 0 <= i < |events| ==> events[i].id != []
  {
  }
}
