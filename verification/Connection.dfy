/** One connection (stream.go): sends, heartbeats and closing, serialised by a mutex. */
module Connection {
  import opened Bytes
  import opened Options
  import opened Writer
  import opened RoundTrip
  import Decode

  /** Callbacks are identified by number. */
  type Callback = nat

  /** The connection: bytes written, closed flag, callbacks waiting, batches handed to Close calls. */
  datatype Conn = Conn(wire: bytes, closed: bool, pending: seq<Callback>, taken: seq<seq<Callback>>)

  const OPENED: Conn := Conn([], false, [], [])

  /** The critical sections, in the order in which they get the mutex. */
  datatype Step = Send(event: Event) | Tick | Close | OnDisconnect(callback: Callback)

  /** A section on a writer that accepts everything. Only ticks look at the closed flag. */
  function Apply(c: Conn, step: Step): Conn {
    match step
    case Send(e) => c.(wire := c.wire + Frame(e))
    case Tick => if c.closed then c else c.(wire := c.wire + HeartbeatFrame())
    case Close => c.(closed := true, pending := [], taken := c.taken + [c.pending])
    case OnDisconnect(cb) => c.(pending := c.pending + [cb])
  }

  function Exec(c: Conn, run: seq<Step>): Conn
    decreases |run|
  {
    if run == [] then c else Exec(Apply(c, run[0]), run[1..])
  }

  // ---------------------------------------------------- the in-place object

  class Stream {
    const w: Sink
    var closed: bool
    var onDisconnect: seq<Callback>
    ghost var taken: seq<seq<Callback>>

    constructor (w: Sink)
      ensures this.w == w && Value() == OPENED.(wire := w.wire)
    {
      this.w := w;
      closed, onDisconnect, taken := false, [], [];
    }

    ghost function Value(): Conn
      reads this, w
    {
      Conn(w.wire, closed, onDisconnect, taken)
    }

    method Send(e: Event) returns (err: Option<WriteError>, ghost accepted: nat)
      modifies w
      ensures accepted <= |Frame(e)| && w.wire == old(w.wire) + Frame(e)[..accepted]
      ensures err.None? ==> Value() == Apply(old(Value()), Step.Send(e))
      ensures err.None? <==> !w.broke && accepted == |Frame(e)|
      ensures err == Some(WriteFailed) <==> w.broke
      ensures w.accepting ==> err.None?
    {
      err, accepted := WriteEvent(w, e);
      assert err.None? ==> Frame(e)[..accepted] == Frame(e);
    }

    /** One tick of `Heartbeat`; `done` tells the loop to return. */
    method Tick() returns (done: bool, ghost accepted: nat)
      modifies w
      ensures !closed ==> accepted <= |HeartbeatFrame()| && w.wire == old(w.wire) + HeartbeatFrame()[..accepted]
      ensures !closed ==> done == w.broke
      ensures !closed && !done && accepted == |HeartbeatFrame()| ==> Value() == Apply(old(Value()), Step.Tick)
      ensures w.accepting ==> Value() == Apply(old(Value()), Step.Tick) && done == closed
      ensures closed ==> done && w.wire == old(w.wire)
    {
      if closed {
        return true, 0;
      }
      var failed: bool;
      failed, accepted := WriteHeartbeat(w);
      assert accepted == |HeartbeatFrame()| ==> HeartbeatFrame()[..accepted] == HeartbeatFrame();
      done := failed;
    }

    method OnDisconnect(callback: Callback)
      modifies this
      ensures Value() == Apply(old(Value()), Step.OnDisconnect(callback))
      ensures onDisconnect == old(onDisconnect) + [callback] && closed == old(closed) && taken == old(taken)
    {
      onDisconnect := onDisconnect + [callback];
    }

    /** `Close`: the callbacks it takes are then fired outside the mutex. */
    method Close() returns (callbacks: seq<Callback>)
      modifies this
      ensures Value() == Apply(old(Value()), Step.Close)
      ensures callbacks == old(onDisconnect) && onDisconnect == []
      ensures closed && taken == old(taken) + [callbacks] && w.wire == old(w.wire)
    {
      closed := true;
      callbacks := onDisconnect;
      onDisconnect := [];
      taken := taken + [callbacks];
    }
  }

  // -------------------------------------------------------------------- runs

  /** What a run writes: every Send, and the ticks before the first Close. */
  function Written(run: seq<Step>, closed: bool): seq<Item>
    decreases |run|
  {
    if run == [] then [] else
      match run[0]
      case Send(e) => [Sent(e)] + Written(run[1..], closed)
      case Tick => (if closed then [] else [Heartbeat]) + Written(run[1..], closed)
      case Close => Written(run[1..], true)
      case OnDisconnect(_) => Written(run[1..], closed)
  }

  lemma WireFront(i: Item, items: seq<Item>)
    ensures Wire([i] + items) == ItemBytes(i) + Wire(items)
  {
  }

  lemma {:induction false} StepWire(c: Conn, step: Step, rest: seq<Step>)
    ensures var c' := Apply(c, step);
            c.wire + Wire(Written([step] + rest, c.closed)) == c'.wire + Wire(Written(rest, c'.closed))
  {
    assert ([step] + rest)[1..] == rest;
    var items := Written(rest, c.closed);
    match step
    case Send(e) =>
      WireFront(Sent(e), items);
      Regroup(c.wire, ItemBytes(Sent(e)), Wire(items));
    case Tick =>
      if c.closed {
        assert [] + items == items;
      } else {
        WireFront(Heartbeat, items);
        Regroup(c.wire, ItemBytes(Heartbeat), Wire(items));
      }
    case Close =>
    case OnDisconnect(cb) =>
  }

  lemma {:induction false} RunWire(c: Conn, run: seq<Step>)
    ensures Exec(c, run).wire == c.wire + Wire(Written(run, c.closed))
    decreases |run|
  {
    if run != [] {
      RunWire(Apply(c, run[0]), run[1..]);
      HeadTail(run);
      StepWire(c, run[0], run[1..]);
    }
  }

  predicate FaithfulRun(run: seq<Step>) {
    forall k :: 0 <= k < |run| && run[k].Send? ==> Faithful(run[k].event)
  }

  lemma {:induction false} WrittenFaithful(run: seq<Step>, closed: bool)
    requires FaithfulRun(run)
    ensures FaithfulItems(Written(run, closed))
    decreases |run|
  {
    if run != [] {
      WrittenFaithful(run[1..], closed || run[0].Close?);
    }
  }

  /** In every run the client decodes the sent events, in the order of the mutex. */
  lemma {:induction false} RunDecodes(run: seq<Step>)
    requires FaithfulRun(run)
    ensures Decode.Events(Exec(OPENED, run).wire) == Expected(Written(run, false), [], 0)
  {
    RunWire(OPENED, run);
    WrittenFaithful(run, false);
    StreamRoundTrip(Written(run, false));
    assert [] + Wire(Written(run, false)) == Wire(Written(run, false));
  }

  /** No heartbeat is written once the connection is closed. */
  lemma {:induction false} NoHeartbeatOnceClosed(run: seq<Step>)
    ensures forall k :: 0 <= k < |Written(run, true)| ==> Written(run, true)[k].Sent?
    decreases |run|
  {
    if run != [] {
      NoHeartbeatOnceClosed(run[1..]);
    }
  }

  lemma {:induction false} ExecConcat(c: Conn, a: seq<Step>, b: seq<Step>)
    ensures Exec(c, a + b) == Exec(Exec(c, a), b)
    decreases |a|
  {
    if a == [] {
      assert a + b == b;
    } else {
      ConcatTail(a, b);
      ExecConcat(Apply(c, a[0]), a[1..], b);
    }
  }

  /** The bytes that follow the first Close are frames of sent events and nothing else. */
  lemma {:induction false} OnlyEventsAfterClose(before: seq<Step>, after: seq<Step>)
    ensures var closedAt := Exec(OPENED, before + [Step.Close]);
            && Exec(OPENED, before + [Step.Close] + after).wire == closedAt.wire + Wire(Written(after, true))
            && forall k :: 0 <= k < |Written(after, true)| ==> Written(after, true)[k].Sent?
  {
    ExecConcat(OPENED, before + [Step.Close], after);
    ExecConcat(OPENED, before, [Step.Close]);
    RunWire(Exec(OPENED, before + [Step.Close]), after);
    NoHeartbeatOnceClosed(after);
  }

  // --------------------------------------------------------------- callbacks

  function Registered(run: seq<Step>): seq<Callback> {
    if run == [] then []
    else (if run[0].OnDisconnect? then [run[0].callback] else []) + Registered(run[1..])
  }

  function Flatten(batches: seq<seq<Callback>>): seq<Callback> {
    if batches == [] then [] else Flatten(batches[..|batches| - 1]) + batches[|batches| - 1]
  }

  function All(c: Conn): seq<Callback> {
    Flatten(c.taken) + c.pending
  }

  lemma StepCallbacks(c: Conn, step: Step)
    ensures All(Apply(c, step)) == All(c) + if step.OnDisconnect? then [step.callback] else []
  {
  }

  /**
   * The batches taken by Close calls, followed by the callbacks still waiting,
   * are the registrations in order: each callback is handed out at most once.
   */
  lemma {:induction false} CallbacksConserved(c: Conn, run: seq<Step>)
    ensures All(Exec(c, run)) == All(c) + Registered(run)
    decreases |run|
  {
    if run != [] {
      var first := if run[0].OnDisconnect? then [run[0].callback] else [];
      StepCallbacks(c, run[0]);
      CallbacksConserved(Apply(c, run[0]), run[1..]);
      Regroup(All(c), first, Registered(run[1..]));
    }
  }

  /** The batches that the Close calls of a run return, in order. */
  function HandedOut(c: Conn, run: seq<Step>): seq<seq<Callback>>
    decreases |run|
  {
    if run == [] then []
    else (if run[0].Close? then [c.pending] else []) + HandedOut(Apply(c, run[0]), run[1..])
  }

  lemma {:induction false} HandedOutIsTaken(c: Conn, run: seq<Step>)
    ensures Exec(c, run).taken == c.taken + HandedOut(c, run)
    decreases |run|
  {
    if run != [] {
      HandedOutIsTaken(Apply(c, run[0]), run[1..]);
      Regroup(c.taken, if run[0].Close? then [c.pending] else [], HandedOut(Apply(c, run[0]), run[1..]));
    }
  }

  /**
   * Over a whole run, the batches that the Close calls return, in order, followed
   * by the callbacks still waiting are the registrations. None is waiting after
   * a Close, so a second Close returns nothing.
   */
  lemma {:induction false} CallbacksRunOnce(run: seq<Step>)
    ensures Flatten(HandedOut(OPENED, run)) + Exec(OPENED, run).pending == Registered(run)
    ensures run != [] && run[|run| - 1].Close? ==> Exec(OPENED, run).pending == [] && Exec(OPENED, run).closed
  {
    CallbacksConserved(OPENED, run);
    HandedOutIsTaken(OPENED, run);
    NothingBefore(HandedOut(OPENED, run));
    NothingBefore(Registered(run));
    if run != [] {
      var n := |run| - 1;
      InitLast(run);
      ExecConcat(OPENED, run[..n], [run[n]]);
    }
  }

  lemma NothingBefore<T>(a: seq<T>)
    ensures [] + a == a
  {
  }
}
