/** What a clean return of Shutdown means for the buffers. */
module HubDrain {
  import opened Hub
  import opened HubRuns

  // ------------------------------------------------------------ composing runs

  lemma {:induction false} RunsCompose<T>(s: System<T>, a: seq<Step<T>>, b: seq<Step<T>>)
    requires ValidRun(s, a + b)
    ensures ValidRun(s, a) && ValidRun(Exec(s, a), b)
    ensures Exec(s, a + b) == Exec(Exec(s, a), b)
    decreases |b|
  {
    if b == [] {
      assert a + b == a;
    } else {
      var n := |b| - 1;
      assert (a + b)[..|a| + n] == a + b[..n];
      RunsCompose(s, a, b[..n]);
    }
  }

  // -------------------------------------------------------------- quiescence

  /** Channel `id` of the snapshot was seen empty in the current pass, and still is. */
  ghost predicate SeenEmpty<T>(s: System<T>, d: nat, snapshot: seq<nat>, id: nat) {
    && d < |s.drains|
    && s.drains[d].snapshot == snapshot
    && match s.drains[d].pc
       case Polling(i, n) => i <= |snapshot| && (n == 0 && id in Elements(snapshot[..i]) ==> Buffer(s.hub, id) == [])
       case Passed => Buffer(s.hub, id) == []
       case Returned(clean) => clean ==> Buffer(s.hub, id) == []
  }

  lemma EmptyStaysEmpty<T>(s: System<T>, step: Step<T>, id: nat)
    requires Inv(s) && Enabled(s, step) && !Accepts(s, step, id)
    ensures |Buffer(Apply(s, step).hub, id)| <= |Buffer(s.hub, id)|
  {
  }

  lemma PollSees<T>(s: System<T>, d: nat, snapshot: seq<nat>, id: nat)
    requires Enabled(s, Poll(d)) && SeenEmpty(s, d, snapshot, id)
    ensures SeenEmpty(Apply(s, Poll(d)), d, snapshot, id)
  {
  }

  lemma StepKeepsSeenEmpty<T>(s: System<T>, step: Step<T>, d: nat, snapshot: seq<nat>, id: nat)
    requires Inv(s) && Enabled(s, step) && !Accepts(s, step, id)
    requires SeenEmpty(s, d, snapshot, id) && id in Elements(snapshot)
    ensures SeenEmpty(Apply(s, step), d, snapshot, id)
  {
    EmptyStaysEmpty(s, step, id);
    if step == Poll(d) {
      PollSees(s, d, snapshot, id);
    } else if step == SeeDrained(d) {
      assert snapshot[..|snapshot|] == snapshot;
    }
  }

  lemma {:induction false} RunKeepsSeenEmpty<T>(s: System<T>, run: seq<Step<T>>, d: nat, snapshot: seq<nat>, id: nat)
    requires Inv(s) && ValidRun(s, run) && Accepted(s, run, id) == []
    requires SeenEmpty(s, d, snapshot, id) && id in Elements(snapshot)
    ensures SeenEmpty(Exec(s, run), d, snapshot, id)
    decreases |run|
  {
    if run != [] {
      var n := |run| - 1;
      RunKeepsSeenEmpty(s, run[..n], d, snapshot, id);
      RunKeepsInv(s, run[..n]);
      StepKeepsSeenEmpty(Exec(s, run[..n]), run[n], d, snapshot, id);
    }
  }

  /** Shutdown call `d` has passed its drain wait, or returned nil. */
  ghost predicate DrainedCleanly<T>(s: System<T>, d: nat) {
    d < |s.drains| && (s.drains[d].pc == Passed || s.drains[d].pc == Returned(true))
  }

  /**
   * Quiescent drain. Let Shutdown `d` stand at the start of its wait after `pre`,
   * and let channel `id` of its snapshot accept nothing during `post`. If the
   * wait succeeds, the buffer is empty and everything that ever entered the
   * channel was received, although buffers are polled one at a time and anything
   * else may happen in between.
   */
  lemma QuiescentDrain<T>(bufferSize: int, onDrop: bool, pre: seq<Step<T>>, post: seq<Step<T>>, d: nat, id: nat)
    requires ValidRun(Start<T>(bufferSize, onDrop), pre + post)
    requires ValidRun(Start<T>(bufferSize, onDrop), pre)
    requires ValidRun(Exec(Start<T>(bufferSize, onDrop), pre), post)
    requires var mid := Exec(Start<T>(bufferSize, onDrop), pre);
             && d < |mid.drains| && mid.drains[d].pc == Polling(0, 0)
             && id in Elements(mid.drains[d].snapshot)
             && Accepted(mid, post, id) == []
    requires DrainedCleanly(Exec(Start<T>(bufferSize, onDrop), pre + post), d)
    ensures var s, run := Start<T>(bufferSize, onDrop), pre + post;
            && Buffer(Exec(s, run).hub, id) == []
            && Received(s, run, id) == Accepted(s, run, id)
  {
    var s := Start<T>(bufferSize, onDrop);
    var mid := Exec(s, pre);
    RunsCompose(s, pre, post);
    RunKeepsInv(s, pre);
    assert mid.drains[d].snapshot[..0] == [];
    RunKeepsSeenEmpty(mid, post, d, mid.drains[d].snapshot, id);
    Conservation(s, pre + post, id);
    assert Received(s, pre + post, id) + [] == Received(s, pre + post, id);
    assert [] + Accepted(s, pre + post, id) == Accepted(s, pre + post, id);
  }

  // ------------------------------------------------------------ total backlog

  /** The number of buffered items over all channels. */
  ghost function Backlog<T>(chans: seq<Chan<T>>): nat {
    if chans == [] then 0 else Backlog(chans[..|chans| - 1]) + |chans[|chans| - 1].buf|
  }

  lemma {:induction false} BacklogSame<T>(a: seq<Chan<T>>, b: seq<Chan<T>>)
    requires |a| == |b| && forall i :: 0 <= i < |a| ==> a[i].buf == b[i].buf
    ensures Backlog(a) == Backlog(b)
    decreases |a|
  {
    if a != [] {
      BacklogSame(a[..|a| - 1], b[..|b| - 1]);
    }
  }

  lemma {:induction false} BacklogUpdate<T>(chans: seq<Chan<T>>, i: nat, c: Chan<T>)
    requires i < |chans|
    ensures Backlog(chans[i := c]) == Backlog(chans) - |chans[i].buf| + |c.buf|
    decreases |chans|
  {
    var n := |chans| - 1;
    if i < n {
      BacklogUpdate(chans[..n], i, c);
      assert chans[i := c][..n] == chans[..n][i := c];
    } else {
      assert chans[i := c][..n] == chans[..n];
    }
  }

  lemma StepBacklog<T>(s: System<T>, step: Step<T>)
    requires Enabled(s, step) && !step.Offer?
    ensures Backlog(Apply(s, step).hub.chans) == Backlog(s.hub.chans) - if step.Receive? then 1 else 0
  {
    var a, b := s.hub.chans, Apply(s, step).hub.chans;
    if step.Receive? {
      BacklogUpdate(a, step.id, a[step.id].(buf := a[step.id].buf[1..]));
    } else if step.Subscribe? {
      assert b[..|a|] == a;
    } else {
      BacklogSame(a, b);
    }
  }

  /** Without sends the backlog never grows, and each receive lowers it by one. */
  lemma {:induction false} BacklogOnlyShrinks<T>(s: System<T>, run: seq<Step<T>>)
    requires ValidRun(s, run) && forall k :: 0 <= k < |run| ==> !run[k].Offer?
    ensures Backlog(Exec(s, run).hub.chans) == Backlog(s.hub.chans) - Receives(run)
    decreases |run|
  {
    if run != [] {
      var n := |run| - 1;
      BacklogOnlyShrinks(s, run[..n]);
      StepBacklog(Exec(s, run[..n]), run[n]);
    }
  }

  ghost function Receives<T>(run: seq<Step<T>>): nat {
    if run == [] then 0 else Receives(run[..|run| - 1]) + if run[|run| - 1].Receive? then 1 else 0
  }

  // ------------------------------------------------ the exact condition

  /** Every broadcast begun in the run carries allowed messages only. */
  ghost predicate Within<T>(run: seq<Step<T>>, allowed: T -> bool) {
    forall k, m :: 0 <= k < |run| && run[k].BeginBroadcast? && 0 <= m < |run[k].batch| ==> allowed(run[k].batch[m])
  }

  /** `s'` can be reached from `s` by a run that broadcasts allowed messages only. */
  ghost predicate Reachable<T(!new)>(s: System<T>, s': System<T>, allowed: T -> bool) {
    exists run :: ValidRun(s, run) && Within(run, allowed) && Exec(s, run) == s'
  }

  /** No broadcast under way carries a message that channel `id` would accept. */
  ghost predicate Harmless<T>(s: System<T>, id: nat) {
    && id < |s.hub.chans|
    && forall f, m :: 0 <= f < |s.flights| && s.flights[f].active && 0 <= m < |s.flights[f].batch|
                      ==> !Matches(s.hub.chans[id], s.flights[f].batch[m])
  }

  lemma StepKeepsPred<T>(s: System<T>, step: Step<T>, id: nat)
    requires Enabled(s, step) && id < |s.hub.chans|
    ensures id < |Apply(s, step).hub.chans| && Apply(s, step).hub.chans[id].pred == s.hub.chans[id].pred
  {
  }

  lemma StepKeepsHarmless<T>(s: System<T>, step: Step<T>, id: nat)
    requires Enabled(s, step) && Harmless(s, id)
    requires step.BeginBroadcast? ==> forall m :: 0 <= m < |step.batch| ==> !Matches(s.hub.chans[id], step.batch[m])
    ensures Harmless(Apply(s, step), id) && !Accepts(s, step, id)
  {
    StepKeepsPred(s, step, id);
  }

  lemma {:induction false} HarmlessRun<T>(s: System<T>, run: seq<Step<T>>, allowed: T -> bool, id: nat)
    requires ValidRun(s, run) && Within(run, allowed) && Harmless(s, id)
    requires forall msg :: allowed(msg) ==> !Matches(s.hub.chans[id], msg)
    ensures Harmless(Exec(s, run), id) && Exec(s, run).hub.chans[id].pred == s.hub.chans[id].pred
    ensures Accepted(s, run, id) == []
    decreases |run|
  {
    if run != [] {
      var n := |run| - 1;
      var before := Exec(s, run[..n]);
      assert Within(run[..n], allowed);
      HarmlessRun(s, run[..n], allowed, id);
      StepKeepsPred(before, run[n], id);
      StepKeepsHarmless(before, run[n], id);
    }
  }

  /** Shutdown `d` has just begun to wait, and channel `id` is one it waits for. */
  ghost predicate Waiting<T>(s: System<T>, d: nat, id: nat) {
    && Inv(s) && WriteLockFree(s) && s.hub.capacity > 0
    && d < |s.drains| && s.drains[d].pc == Polling(0, 0)
    && id in Tracked(s.hub) && id in Elements(s.drains[d].snapshot)
  }

  /** If no allowed message matches, a wait that succeeds leaves the buffer empty. */
  lemma DrainedWithoutMatches<T(!new)>(s: System<T>, s': System<T>, allowed: T -> bool, d: nat, id: nat)
    requires Waiting(s, d, id) && Reachable(s, s', allowed) && DrainedCleanly(s', d)
    requires forall msg :: allowed(msg) ==> !Matches(s.hub.chans[id], msg)
    ensures Buffer(s'.hub, id) == []
  {
    var run :| ValidRun(s, run) && Within(run, allowed) && Exec(s, run) == s';
    HarmlessRun(s, run, allowed, id);
    RunKeepsSeenEmpty(s, run, d, s.drains[d].snapshot, id);
  }

  /** Every Shutdown of an open hub begins so, for each channel tracked at that moment. */
  lemma ShutdownWaits<T>(s: System<T>, snapshot: seq<nat>, id: nat)
    requires Inv(s) && Enabled(s, BeginShutdown(snapshot)) && s.hub.capacity > 0
    requires id in Tracked(s.hub)
    ensures Waiting(Apply(s, BeginShutdown(snapshot)), |s.drains|, id)
  {
    StepKeepsInv(s, BeginShutdown(snapshot));
  }

  // ---------------------------------------- a nil result with an item left

  lemma Follow<T>(s: System<T>, run: seq<Step<T>>, step: Step<T>)
    requires ValidRun(s, run) && Enabled(Exec(s, run), step)
    ensures ValidRun(s, run + [step]) && Exec(s, run + [step]) == Apply(Exec(s, run), step)
  {
  }

  lemma StaysHere<T(!new)>(s: System<T>, allowed: T -> bool)
    ensures Reachable(s, s, allowed)
  {
    var run: seq<Step<T>> := [];
    assert ValidRun(s, run) && Within(run, allowed) && Exec(s, run) == s;
  }

  lemma Onward<T(!new)>(s: System<T>, s1: System<T>, step: Step<T>, allowed: T -> bool)
    requires Reachable(s, s1, allowed) && Enabled(s1, step) && Within([step], allowed)
    requires Inv(s)
    ensures Reachable(s, Apply(s1, step), allowed) && Inv(Apply(s1, step))
  {
    var run :| ValidRun(s, run) && Within(run, allowed) && Exec(s, run) == s1;
    Follow(s, run, step);
    var run' := run + [step];
    assert Within(run', allowed) by {
      assert [step][0] == step;
    }
    RunKeepsInv(s, run');
  }

  lemma ReceiveEmpties<T>(s: System<T>, i: nat)
    requires Enabled(s, Receive(i))
    ensures var s' := Apply(s, Receive(i));
            Emptied(s'.hub.chans) == Emptied(s.hub.chans) && s' == s.(hub := s.hub.(chans := s'.hub.chans))
  {
  }

  /** Consumers take everything out of the buffers. */
  lemma {:induction false} ConsumeAll<T(!new)>(s: System<T>, s1: System<T>, allowed: T -> bool) returns (s': System<T>)
    requires Inv(s) && Inv(s1) && Reachable(s, s1, allowed)
    ensures Reachable(s, s', allowed) && Inv(s')
    ensures s'.hub.chans == Emptied(s1.hub.chans) && s' == s1.(hub := s1.hub.(chans := s'.hub.chans))
    decreases Backlog(s1.hub.chans)
  {
    if i :| 0 <= i < |s1.hub.chans| && s1.hub.chans[i].buf != [] {
      var s2 := Apply(s1, Receive(i));
      Onward(s, s1, Receive(i), allowed);
      StepBacklog(s1, Receive(i));
      ReceiveEmpties(s1, i);
      s' := ConsumeAll(s, s2, allowed);
    } else {
      s' := s1;
      assert Emptied(s1.hub.chans) == s1.hub.chans;
    }
  }

  function Emptied<T>(chans: seq<Chan<T>>): (r: seq<Chan<T>>)
    ensures |r| == |chans|
    ensures forall i :: 0 <= i < |chans| ==> r[i] == chans[i].(buf := [])
  {
    seq(|chans|, i requires 0 <= i < |chans| => chans[i].(buf := []))
  }

  /** A pass over empty buffers counts nothing. */
  lemma {:induction false} PollAll<T(!new)>(s: System<T>, s1: System<T>, allowed: T -> bool, d: nat)
    requires Inv(s) && Inv(s1) && Reachable(s, s1, allowed)
    requires forall i :: 0 <= i < |s1.hub.chans| ==> s1.hub.chans[i].buf == []
    requires d < |s1.drains| && s1.drains[d].pc.Polling? && s1.drains[d].pc.notDrained == 0
    requires s1.drains[d].pc.i <= |s1.drains[d].snapshot|
    ensures var s' := SetPc(s1, d, Polling(|s1.drains[d].snapshot|, 0)); Reachable(s, s', allowed) && Inv(s')
    decreases |s1.drains[d].snapshot| - s1.drains[d].pc.i
  {
    var i, n := s1.drains[d].pc.i, |s1.drains[d].snapshot|;
    if i < n {
      var s2 := Apply(s1, Poll(d));
      assert s2 == SetPc(s1, d, Polling(i + 1, 0));
      Onward(s, s1, Poll(d), allowed);
      PollAll(s, s2, allowed, d);
      assert SetPc(s2, d, Polling(n, 0)) == SetPc(s1, d, Polling(n, 0));
    } else {
      assert SetPc(s1, d, Polling(n, 0)) == s1;
    }
  }

  /** Broadcast `f` is the only one under way, its message sits in channel `id`, Shutdown `d` stands at `pc`. */
  ghost predicate Slipped<T>(s: System<T>, f: nat, d: nat, id: nat, msg: T, pc: Pc) {
    && Inv(s)
    && f < |s.flights| && (forall g :: 0 <= g < |s.flights| && g != f ==> !s.flights[g].active)
    && (var fl := s.flights[f]; fl.active && fl.batch == [msg] && (fl.next == 0 ==> id !in fl.todo))
    && d < |s.drains| && s.drains[d].pc == pc
    && Buffer(s.hub, id) == [msg]
  }

  lemma OfferSlips<T>(s: System<T>, f: nat, d: nat, id: nat, msg: T)
    requires Inv(s) && s.hub.capacity > 0 && f < |s.flights| && d < |s.drains|
    requires forall g :: 0 <= g < |s.flights| && g != f ==> !s.flights[g].active
    requires s.flights[f] == Flight([msg], Tracked(s.hub), 0, Tracked(s.hub), true)
    requires id in Tracked(s.hub) && Buffer(s.hub, id) == [] && Matches(s.hub.chans[id], msg)
    ensures var s' := Apply(s, Offer(f, id));
            s'.drains == s.drains && Slipped(s', f, d, id, msg, s.drains[d].pc) && s'.flights[f].next == 0
  {
    StepKeepsInv(s, Offer(f, id));
    assert Open(s.hub, id);
    assert [] + [msg] == [msg];
  }

  /** The message is broadcast and enters the channel behind the poll. */
  lemma SendBehindPoll<T(!new)>(s: System<T>, s1: System<T>, allowed: T -> bool, d: nat, id: nat, msg: T)
    returns (s': System<T>)
    requires Inv(s) && Inv(s1) && Reachable(s, s1, allowed) && allowed(msg)
    requires WriteLockFree(s1) && s1.hub.capacity > 0 && d < |s1.drains|
    requires id in Tracked(s1.hub) && Buffer(s1.hub, id) == [] && Matches(s1.hub.chans[id], msg)
    ensures Reachable(s, s', allowed) && s'.drains == s1.drains
    ensures Slipped(s', |s1.flights|, d, id, msg, s1.drains[d].pc) && s'.flights[|s1.flights|].next == 0
  {
    var f := |s1.flights|;
    var s2 := Apply(s1, BeginBroadcast([msg]));
    assert Within([BeginBroadcast([msg])], allowed);
    Onward(s, s1, BeginBroadcast([msg]), allowed);
    OfferSlips(s2, f, d, id, msg);
    Onward(s, s2, Offer(f, id), allowed);
    s' := Apply(s2, Offer(f, id));
  }

  lemma OfferKeepsSlipped<T>(s: System<T>, f: nat, d: nat, id: nat, msg: T, pc: Pc, j: nat)
    requires Slipped(s, f, d, id, msg, pc) && s.flights[f].next == 0 && j in s.flights[f].todo
    ensures var s' := Apply(s, Offer(f, j));
            Slipped(s', f, d, id, msg, pc) && s'.flights[f].next == 0 && s'.flights[f].todo == s.flights[f].todo - {j}
  {
    StepKeepsInv(s, Offer(f, j));
    assert Open(s.hub, j) && j != id;
  }

  lemma LastMessageKeepsSlipped<T>(s: System<T>, f: nat, d: nat, id: nat, msg: T, pc: Pc)
    requires Slipped(s, f, d, id, msg, pc) && s.flights[f].next == 0 && s.flights[f].todo == {}
    ensures var s' := Apply(s, NextMessage(f)); Slipped(s', f, d, id, msg, pc) && s'.flights[f].next == 1
  {
    StepKeepsInv(s, NextMessage(f));
  }

  lemma EndOfSlipped<T>(s: System<T>, f: nat, d: nat, id: nat, msg: T, pc: Pc)
    requires Slipped(s, f, d, id, msg, pc) && s.flights[f].next == 1
    ensures var s' := Apply(s, EndBroadcast(f)); LeftBehind(s', d, id, msg, pc)
  {
    StepKeepsInv(s, EndBroadcast(f));
  }

  /** The broadcast is over, its message sits in channel `id`, Shutdown `d` stands at `pc`. */
  ghost predicate LeftBehind<T>(s: System<T>, d: nat, id: nat, msg: T, pc: Pc) {
    Inv(s) && WriteLockFree(s) && d < |s.drains| && s.drains[d].pc == pc && Buffer(s.hub, id) == [msg]
  }

  lemma LockReleased<T(!new)>(s: System<T>, s1: System<T>, allowed: T -> bool, f: nat, d: nat, id: nat, msg: T, pc: Pc)
    returns (s': System<T>)
    requires Inv(s) && Reachable(s, s1, allowed)
    requires Slipped(s1, f, d, id, msg, pc) && s1.flights[f].next == 0 && s1.flights[f].todo == {}
    ensures Reachable(s, s', allowed) && LeftBehind(s', d, id, msg, pc)
  {
    Onward(s, s1, NextMessage(f), allowed);
    LastMessageKeepsSlipped(s1, f, d, id, msg, pc);
    var s2 := Apply(s1, NextMessage(f));
    Onward(s, s2, EndBroadcast(f), allowed);
    EndOfSlipped(s2, f, d, id, msg, pc);
    s' := Apply(s2, EndBroadcast(f));
  }

  /** The broadcast goes on to the other channels and releases the lock. */
  lemma {:induction false} BroadcastEnds<T(!new)>(s: System<T>, s1: System<T>, allowed: T -> bool, f: nat, d: nat, id: nat, msg: T, pc: Pc)
    returns (s': System<T>)
    requires Inv(s) && Reachable(s, s1, allowed)
    requires Slipped(s1, f, d, id, msg, pc) && s1.flights[f].next == 0
    ensures Reachable(s, s', allowed) && LeftBehind(s', d, id, msg, pc)
    decreases |s1.flights[f].todo|
  {
    if j :| j in s1.flights[f].todo {
      Onward(s, s1, Offer(f, j), allowed);
      OfferKeepsSlipped(s1, f, d, id, msg, pc, j);
      s' := BroadcastEnds(s, Apply(s1, Offer(f, j)), allowed, f, d, id, msg, pc);
    } else {
      s' := LockReleased(s, s1, allowed, f, d, id, msg, pc);
    }
  }

  /** The poll has passed, and the Shutdown closes the channel with the item in it. */
  lemma ShutdownEnds<T(!new)>(s: System<T>, s1: System<T>, allowed: T -> bool, d: nat, id: nat, msg: T) returns (s': System<T>)
    requires Inv(s) && Reachable(s, s1, allowed) && LeftBehind(s1, d, id, msg, Passed)
    ensures Reachable(s, s', allowed) && ReturnedNil(s', d) && Buffer(s'.hub, id) == [msg]
  {
    Onward(s, s1, EndShutdown(d), allowed);
    s' := Apply(s1, EndShutdown(d));
  }

  lemma PollPasses<T(!new)>(s: System<T>, s1: System<T>, allowed: T -> bool, f: nat, d: nat, id: nat, msg: T)
    requires Inv(s) && Reachable(s, s1, allowed) && d < |s1.drains|
    requires Slipped(s1, f, d, id, msg, Polling(|s1.drains[d].snapshot|, 0))
    ensures Enabled(s1, SeeDrained(d))
    ensures var s' := Apply(s1, SeeDrained(d));
            Reachable(s, s', allowed) && Slipped(s', f, d, id, msg, Passed) && s'.flights == s1.flights
  {
    Onward(s, s1, SeeDrained(d), allowed);
  }

  /**
   * Whatever the state of the hub, as long as one message may be broadcast that
   * a subscriber accepts, Shutdown can return nil with that message in the
   * subscriber's buffer: it entered after the buffer had been polled.
   */
  lemma NilIsNotEmpty<T(!new)>(s: System<T>, allowed: T -> bool, d: nat, id: nat, msg: T) returns (s': System<T>)
    requires Waiting(s, d, id) && allowed(msg) && Matches(s.hub.chans[id], msg)
    ensures Reachable(s, s', allowed)
    ensures ReturnedNil(s', d) && Buffer(s'.hub, id) == [msg]
  {
    StaysHere(s, allowed);
    var emptied := ConsumeAll(s, s, allowed);
    PollAll(s, emptied, allowed, d);
    var polled := SetPc(emptied, d, Polling(|s.drains[d].snapshot|, 0));
    var f := |s.flights|;
    var sent := SendBehindPoll(s, polled, allowed, d, id, msg);
    PollPasses(s, sent, allowed, f, d, id, msg);
    var left := BroadcastEnds(s, Apply(sent, SeeDrained(d)), allowed, f, d, id, msg, Passed);
    s' := ShutdownEnds(s, left, allowed, d, id, msg);
  }

  ghost predicate ReturnedNil<T>(s: System<T>, d: nat) {
    d < |s.drains| && s.drains[d].pc == Returned(true)
  }

  /** Every nil return that allowed broadcasts can lead to finds the buffer of `id` empty. */
  ghost predicate NilMeansEmpty<T(!new)>(s: System<T>, allowed: T -> bool, d: nat, id: nat) {
    forall s' :: Reachable(s, s', allowed) && ReturnedNil(s', d) ==> Buffer(s'.hub, id) == []
  }

  /**
   * The exact condition: let Shutdown `d` begin its wait while producers may go
   * on to broadcast the allowed messages. A nil result means that a subscriber's
   * buffer is empty if and only if no allowed message matches that subscriber.
   */
  lemma NilMeansEmptyIff<T(!new)>(s: System<T>, allowed: T -> bool, d: nat, id: nat)
    requires Waiting(s, d, id)
    ensures NilMeansEmpty(s, allowed, d, id) <==> forall msg :: allowed(msg) ==> !Matches(s.hub.chans[id], msg)
  {
    if msg :| allowed(msg) && Matches(s.hub.chans[id], msg) {
      var s' := NilIsNotEmpty(s, allowed, d, id, msg);
      assert Buffer(s'.hub, id) != [];
    } else {
      forall s' | Reachable(s, s', allowed) && ReturnedNil(s', d) ensures Buffer(s'.hub, id) == [] {
        DrainedWithoutMatches(s, s', allowed, d, id);
      }
    }
  }
}
