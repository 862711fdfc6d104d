/**
 * The fan-out hub under concurrency: every interleaving of subscribers,
 * broadcasters, consumers and any number of Shutdown and Close calls.
 *
 * Sections that hold the write lock are single steps and need every broadcast
 * to have left its read-locked section. A broadcast sends to one channel per
 * step; a Shutdown polls one buffer per step.
 */
module HubRuns {
  import opened Bytes
  import opened Options
  import opened Hub

  /**
   * A broadcast call: message `next` still has to be offered to `todo`. The
   * channels tracked when it got the lock are its `audience`.
   */
  datatype Flight<!T> = Flight(batch: seq<T>, audience: set<nat>, next: nat, todo: set<nat>, active: bool)

  /** Where a Shutdown call stands. */
  datatype Pc =
    | Polling(i: nat, notDrained: nat)   // inside waitForDrain's inner loop
    | Passed                             // every buffer was seen empty; the lock is next
    | Returned(clean: bool)

  datatype Drain = Drain(snapshot: seq<nat>, pc: Pc)

  datatype System<!T> = System(
    hub: State<T>,
    flights: seq<Flight<T>>,
    drains: seq<Drain>,
    panicked: bool)

  datatype Step<!T> =
    // write lock
    | Subscribe(pred: Option<T -> Verdict>)
    | Unsubscribe(id: nat)
    | Close
    | SetOnDrop(on: bool)
    | BeginShutdown(snapshot: seq<nat>)
    | EndShutdown(d: nat)
    // read lock
    | BeginBroadcast(batch: seq<T>)
    | Offer(f: nat, id: nat)
    | NextMessage(f: nat)
    | EndBroadcast(f: nat)
    // no lock
    | Receive(id: nat)
    | Poll(d: nat)
    | PollAgain(d: nat)
    | Cancel(d: nat)
    | SeeDrained(d: nat)

  function Start<T>(bufferSize: int, onDrop: bool): System<T> {
    System(Fresh(BufferSize(bufferSize), onDrop), [], [], false)
  }

  /** No broadcast holds the read lock. */
  ghost predicate WriteLockFree<T>(s: System<T>) {
    forall f :: 0 <= f < |s.flights| ==> !s.flights[f].active
  }

  ghost predicate NeedsWriteLock<T>(step: Step<T>) {
    step.Subscribe? || step.Unsubscribe? || step.Close? || step.SetOnDrop? || step.BeginShutdown? || step.EndShutdown?
  }

  /** Shutdown call `d` has finished a pass over its snapshot. */
  ghost predicate PassDone<T>(s: System<T>, d: nat) {
    d < |s.drains| && s.drains[d].pc.Polling? && s.drains[d].pc.i == |s.drains[d].snapshot|
  }

  ghost predicate Enabled<T>(s: System<T>, step: Step<T>) {
    && (NeedsWriteLock(step) ==> WriteLockFree(s))
    && match step
       case Subscribe(_) => true
       case Unsubscribe(_) => true
       case Close => true
       case SetOnDrop(_) => true
       case BeginShutdown(snapshot) => Elements(snapshot) == Tracked(s.hub)
       case EndShutdown(d) => d < |s.drains| && s.drains[d].pc.Passed?
       case BeginBroadcast(_) => true
       case Offer(f, id) => f < |s.flights| && s.flights[f].active && s.flights[f].next < |s.flights[f].batch| && id in s.flights[f].todo
       case NextMessage(f) => f < |s.flights| && s.flights[f].active && s.flights[f].next < |s.flights[f].batch| && s.flights[f].todo == {}
       case EndBroadcast(f) => f < |s.flights| && s.flights[f].active && s.flights[f].next >= |s.flights[f].batch|
       case Receive(id) => id < |s.hub.chans| && s.hub.chans[id].buf != []
       case Poll(d) => d < |s.drains| && s.drains[d].pc.Polling? && s.drains[d].pc.i < |s.drains[d].snapshot|
       case PollAgain(d) => PassDone(s, d) && s.drains[d].pc.notDrained > 0
       case Cancel(d) => PassDone(s, d) && s.drains[d].pc.notDrained > 0
       case SeeDrained(d) => PassDone(s, d) && s.drains[d].pc.notDrained == 0
  }

  /** Channel `id` exists and is open. */
  predicate Open<T>(h: State<T>, id: nat) {
    id < |h.chans| && h.chans[id].closes == 0
  }

  function SetPc<T>(s: System<T>, d: nat, pc: Pc): System<T>
    requires d < |s.drains|
  {
    s.(drains := s.drains[d := s.drains[d].(pc := pc)])
  }

  /** The items buffered for channel `id`; nothing for a channel yet to be created. */
  function Buffer<T>(h: State<T>, id: nat): seq<T> {
    if id < |h.chans| then h.chans[id].buf else []
  }

  /** A step. A send on a closed channel and a second close both panic. */
  ghost function Apply<T>(s: System<T>, step: Step<T>): System<T>
    requires Enabled(s, step)
  {
    match step
    case Subscribe(pred) => s.(hub := AfterSubscribe(s.hub, pred))
    case Unsubscribe(id) =>
      if id !in Tracked(s.hub) then s
      else if !Open(s.hub, id) then s.(panicked := true)
      else s.(hub := AfterUnsubscribe(s.hub, id))
    case Close =>
      s.(hub := AfterClose(s.hub), panicked := s.panicked || exists i :: i in Tracked(s.hub) && !Open(s.hub, i))
    case SetOnDrop(on) => s.(hub := s.hub.(onDrop := on))
    case BeginShutdown(snapshot) =>
      s.(hub := AfterBegin(s.hub),
         drains := s.drains + [Drain(snapshot, if s.hub.subs.None? then Returned(true) else Polling(0, 0))])
    case EndShutdown(d) =>
      var snapshot := s.drains[d].snapshot;
      SetPc(s, d, Returned(true)).(
        hub := AfterFinish(s.hub, snapshot),
        panicked := s.panicked || exists i :: i in Tracked(s.hub) * Elements(snapshot) && !Open(s.hub, i))
    case BeginBroadcast(batch) => s.(flights := s.flights + [Flight(batch, Tracked(s.hub), 0, Tracked(s.hub), true)])
    case Offer(f, id) =>
      var flight := s.flights[f];
      if !Open(s.hub, id) then s.(panicked := true)
      else s.(hub := AfterOffer(s.hub, id, flight.batch[flight.next]),
              flights := s.flights[f := flight.(todo := flight.todo - {id})])
    case NextMessage(f) =>
      s.(flights := s.flights[f := s.flights[f].(next := s.flights[f].next + 1, todo := Tracked(s.hub))])
    case EndBroadcast(f) => s.(flights := s.flights[f := s.flights[f].(active := false)])
    case Receive(id) => s.(hub := s.hub.(chans := s.hub.chans[id := s.hub.chans[id].(buf := s.hub.chans[id].buf[1..])]))
    case Poll(d) =>
      var Polling(i, n) := s.drains[d].pc;
      SetPc(s, d, Polling(i + 1, if Buffer(s.hub, s.drains[d].snapshot[i]) == [] then n else n + 1))
    case PollAgain(d) => SetPc(s, d, Polling(0, 0))
    case Cancel(d) => SetPc(s, d, Returned(false))
    case SeeDrained(d) => SetPc(s, d, Passed)
  }

  // --------------------------------------------------------------------- runs

  ghost predicate ValidRun<T>(s: System<T>, run: seq<Step<T>>)
    decreases |run|, 0
  {
    run == [] ||
    var n := |run| - 1;
    ValidRun(s, run[..n]) && Enabled(Exec(s, run[..n]), run[n])
  }

  ghost function Exec<T>(s: System<T>, run: seq<Step<T>>): System<T>
    requires ValidRun(s, run)
    decreases |run|, 1
  {
    if run == [] then s else var n := |run| - 1; Apply(Exec(s, run[..n]), run[n])
  }

  // ---------------------------------------------------------------- invariant

  /** Nothing a broadcast still has to send to has left the hub. */
  ghost predicate FlightsSound<T>(s: System<T>) {
    forall f :: 0 <= f < |s.flights| && s.flights[f].active ==> s.flights[f].todo <= Tracked(s.hub)
  }

  /** Once a Shutdown has its snapshot, the tracked set never leaves it. */
  ghost predicate DrainsSound<T>(s: System<T>) {
    forall d :: 0 <= d < |s.drains| ==>
      && Tracked(s.hub) <= Elements(s.drains[d].snapshot)
      && (s.hub.subs.Some? ==> s.hub.draining)
  }

  ghost predicate Inv<T>(s: System<T>) {
    && Sound(s.hub)
    && FlightsSound(s)
    && DrainsSound(s)
    && !s.panicked
  }

  lemma SubscribeSound<T>(h: State<T>, pred: Option<T -> Verdict>)
    requires Sound(h)
    ensures Sound(AfterSubscribe(h, pred))
    ensures h.subs.None? || h.draining ==> Tracked(AfterSubscribe(h, pred)) == Tracked(h)
  {
    var h' := AfterSubscribe(h, pred);
    if h.subs.None? || h.draining {
      assert Tracked(h') == Tracked(h);
    } else {
      assert Tracked(h') == Tracked(h) + {|h.chans|};
    }
  }

  lemma UnsubscribeSound<T>(h: State<T>, id: nat)
    requires Sound(h) && id in Tracked(h)
    ensures Sound(AfterUnsubscribe(h, id)) && Tracked(AfterUnsubscribe(h, id)) <= Tracked(h)
  {
  }

  lemma CloseSound<T>(h: State<T>)
    requires Sound(h)
    ensures Sound(AfterClose(h)) && Tracked(AfterClose(h)) == {}
  {
  }

  lemma FinishSound<T>(h: State<T>, snapshot: seq<nat>)
    requires Sound(h) && Tracked(h) <= Elements(snapshot)
    ensures Sound(AfterFinish(h, snapshot)) && Tracked(AfterFinish(h, snapshot)) == {}
  {
  }

  /** Inside the write lock it is enough to keep the hub sound and the tracked set from growing. */
  lemma LockedChangeKeepsInv<T>(s: System<T>, s': System<T>)
    requires Inv(s) && WriteLockFree(s) && s'.flights == s.flights && !s'.panicked
    requires |s'.drains| == |s.drains| && forall d :: 0 <= d < |s.drains| ==> s'.drains[d].snapshot == s.drains[d].snapshot
    requires Sound(s'.hub)
    requires s.drains != [] ==> Tracked(s'.hub) <= Tracked(s.hub) && (s'.hub.subs.Some? ==> s.hub.subs.Some? && s'.hub.draining)
    ensures Inv(s')
  {
    forall d | 0 <= d < |s'.drains| ensures Tracked(s'.hub) <= Elements(s'.drains[d].snapshot) {
      assert Tracked(s.hub) <= Elements(s.drains[d].snapshot);
    }
  }

  lemma DrainingIfDrains<T>(s: System<T>)
    requires Inv(s) && s.drains != []
    ensures s.hub.subs.Some? ==> s.hub.draining
  {
    var first := s.drains[0];
  }

  lemma BeginKeepsInv<T>(s: System<T>, snapshot: seq<nat>)
    requires Inv(s) && Enabled(s, BeginShutdown(snapshot))
    ensures Inv(Apply(s, BeginShutdown(snapshot)))
  {
    var s' := Apply(s, BeginShutdown(snapshot));
    assert Tracked(s'.hub) == Tracked(s.hub) && s'.hub.chans == s.hub.chans && s'.hub.capacity == s.hub.capacity;
    forall d | 0 <= d < |s'.drains| ensures Tracked(s'.hub) <= Elements(s'.drains[d].snapshot) {
      if d < |s.drains| {
        assert s'.drains[d] == s.drains[d];
      }
    }
  }

  lemma WriteStepKeepsInv<T>(s: System<T>, step: Step<T>)
    requires Inv(s) && Enabled(s, step) && NeedsWriteLock(step)
    ensures Inv(Apply(s, step))
  {
    var s' := Apply(s, step);
    if s.drains != [] {
      DrainingIfDrains(s);
    }
    match step
    case Subscribe(pred) =>
      SubscribeSound(s.hub, pred);
      LockedChangeKeepsInv(s, s');
    case Unsubscribe(id) =>
      if id in Tracked(s.hub) {
        UnsubscribeSound(s.hub, id);
        assert Open(s.hub, id);
        LockedChangeKeepsInv(s, s');
      }
    case Close =>
      CloseSound(s.hub);
      LockedChangeKeepsInv(s, s');
    case SetOnDrop(on) =>
      assert Tracked(s'.hub) == Tracked(s.hub) && Sound(s'.hub);
      LockedChangeKeepsInv(s, s');
    case BeginShutdown(snapshot) =>
      BeginKeepsInv(s, snapshot);
    case EndShutdown(d) =>
      assert Tracked(s.hub) <= Elements(s.drains[d].snapshot);
      FinishSound(s.hub, s.drains[d].snapshot);
      LockedChangeKeepsInv(s, s');
  }

  lemma OfferKeepsSound<T>(h: State<T>, id: nat, msg: T)
    requires Sound(h) && id in Tracked(h)
    ensures Sound(AfterOffer(h, id, msg)) && Tracked(AfterOffer(h, id, msg)) == Tracked(h)
  {
  }

  lemma OfferKeepsInv<T>(s: System<T>, f: nat, id: nat)
    requires Inv(s) && Enabled(s, Offer(f, id))
    ensures Inv(Apply(s, Offer(f, id)))
  {
    var msg, s' := s.flights[f].batch[s.flights[f].next], Apply(s, Offer(f, id));
    assert id in Tracked(s.hub) && Open(s.hub, id);
    OfferKeepsSound(s.hub, id, msg);
    assert s'.hub == AfterOffer(s.hub, id, msg);
    forall g | 0 <= g < |s'.flights| && s'.flights[g].active
      ensures s'.flights[g].todo <= Tracked(s'.hub)
    {
      assert s.flights[g].active && s'.flights[g].todo <= s.flights[g].todo;
    }
    forall d | 0 <= d < |s'.drains| ensures Tracked(s'.hub) <= Elements(s'.drains[d].snapshot) {
      assert s'.drains[d] == s.drains[d];
    }
    if s'.drains != [] {
      DrainingIfDrains(s);
    }
  }

  lemma OtherStepKeepsInv<T>(s: System<T>, step: Step<T>)
    requires Inv(s) && Enabled(s, step) && !NeedsWriteLock(step) && !step.Offer?
    ensures Inv(Apply(s, step))
  {
    var s' := Apply(s, step);
    match step
    case BeginBroadcast(batch) =>
    case NextMessage(f) =>
    case EndBroadcast(f) =>
    case Receive(id) =>
      assert Tracked(s'.hub) == Tracked(s.hub);
    case Poll(d) =>
    case PollAgain(d) =>
    case Cancel(d) =>
    case SeeDrained(d) =>
  }

  lemma StepKeepsInv<T>(s: System<T>, step: Step<T>)
    requires Inv(s) && Enabled(s, step)
    ensures Inv(Apply(s, step))
  {
    if NeedsWriteLock(step) {
      WriteStepKeepsInv(s, step);
    } else if step.Offer? {
      OfferKeepsInv(s, step.f, step.id);
    } else {
      OtherStepKeepsInv(s, step);
    }
  }

  lemma {:induction false} RunKeepsInv<T>(s: System<T>, run: seq<Step<T>>)
    requires Inv(s) && ValidRun(s, run)
    ensures Inv(Exec(s, run))
    decreases |run|
  {
    if run != [] {
      var n := |run| - 1;
      RunKeepsInv(s, run[..n]);
      StepKeepsInv(Exec(s, run[..n]), run[n]);
    }
  }

  // ----------------------------------------------------------------- progress

  /** Some step of broadcast `f` can happen. */
  ghost predicate BroadcastCanGoOn<T>(s: System<T>, f: nat) {
    || Enabled(s, NextMessage(f))
    || Enabled(s, EndBroadcast(f))
    || exists id :: Enabled(s, Offer(f, id))
  }

  /** Polls stay within the snapshot. */
  ghost predicate PollsWithin<T>(s: System<T>) {
    forall d :: 0 <= d < |s.drains| && s.drains[d].pc.Polling? ==> s.drains[d].pc.i <= |s.drains[d].snapshot|
  }

  lemma {:induction false} RunPollsWithin<T>(s: System<T>, run: seq<Step<T>>)
    requires ValidRun(s, run) && PollsWithin(s)
    ensures PollsWithin(Exec(s, run))
    decreases |run|
  {
    if run != [] {
      var n := |run| - 1;
      RunPollsWithin(s, run[..n]);
      StepPollsWithin(Exec(s, run[..n]), run[n]);
    }
  }

  lemma StepPollsWithin<T>(s: System<T>, step: Step<T>)
    requires Enabled(s, step) && PollsWithin(s)
    ensures PollsWithin(Apply(s, step))
  {
  }

  /** Shutdown `d` can poll, or has seen every buffer empty, or may poll again and may be cancelled. */
  ghost predicate WaitCanGoOn<T>(s: System<T>, d: nat) {
    || Enabled(s, Poll(d))
    || Enabled(s, SeeDrained(d))
    || (Enabled(s, PollAgain(d)) && Enabled(s, Cancel(d)))
  }

  lemma BroadcastGoesOn<T>(s: System<T>, f: nat)
    requires f < |s.flights| && s.flights[f].active
    ensures BroadcastCanGoOn(s, f)
  {
    var fl := s.flights[f];
    if fl.next < |fl.batch| && fl.todo != {} {
      var id :| id in fl.todo;
      assert Enabled(s, Offer(f, id));
    }
  }

  lemma WaitGoesOn<T>(s: System<T>, d: nat)
    requires PollsWithin(s) && d < |s.drains| && s.drains[d].pc.Polling?
    ensures WaitCanGoOn(s, d)
  {
  }

  /** Nothing blocks for ever by itself, neither a broadcast, whatever consumers do, nor a wait. */
  lemma NothingBlocks<T>(bufferSize: int, onDrop: bool, run: seq<Step<T>>)
    requires ValidRun(Start<T>(bufferSize, onDrop), run)
    ensures var s := Exec(Start<T>(bufferSize, onDrop), run);
            && (forall f :: 0 <= f < |s.flights| && s.flights[f].active ==> BroadcastCanGoOn(s, f))
            && (forall d :: 0 <= d < |s.drains| && s.drains[d].pc.Polling? ==> WaitCanGoOn(s, d))
  {
    var start := Start<T>(bufferSize, onDrop);
    var s := Exec(start, run);
    RunPollsWithin(start, run);
    forall f | 0 <= f < |s.flights| && s.flights[f].active ensures BroadcastCanGoOn(s, f) {
      BroadcastGoesOn(s, f);
    }
    forall d | 0 <= d < |s.drains| && s.drains[d].pc.Polling? ensures WaitCanGoOn(s, d) {
      WaitGoesOn(s, d);
    }
  }

  /** With no broadcast under way every call can have the write lock; messages can be received at any time. */
  lemma CallsAreAdmitted<T>(s: System<T>, step: Step<T>)
    requires step.BeginShutdown? ==> Elements(step.snapshot) == Tracked(s.hub)
    requires step.EndShutdown? ==> step.d < |s.drains| && s.drains[step.d].pc == Passed
    requires step.Receive? ==> Buffer(s.hub, step.id) != []
    ensures NeedsWriteLock(step) ==> (Enabled(s, step) <==> WriteLockFree(s))
    ensures step.BeginBroadcast? || step.Receive? ==> Enabled(s, step)
  {
  }

  // ------------------------------------------------------------------- safety

  /** No send on a closed channel and no second close, in any run. */
  lemma NeverPanics<T>(bufferSize: int, onDrop: bool, run: seq<Step<T>>)
    requires ValidRun(Start<T>(bufferSize, onDrop), run)
    ensures !Exec(Start<T>(bufferSize, onDrop), run).panicked
  {
    RunKeepsInv(Start<T>(bufferSize, onDrop), run);
  }

  lemma StepKeepsCapacity<T>(s: System<T>, step: Step<T>)
    requires Enabled(s, step)
    ensures Apply(s, step).hub.capacity == s.hub.capacity
  {
  }

  lemma {:induction false} CapacityFixed<T>(s: System<T>, run: seq<Step<T>>)
    requires ValidRun(s, run)
    ensures Exec(s, run).hub.capacity == s.hub.capacity
    decreases |run|
  {
    if run != [] {
      var n := |run| - 1;
      CapacityFixed(s, run[..n]);
      StepKeepsCapacity(Exec(s, run[..n]), run[n]);
    }
  }

  /**
   * At every moment a channel is open while tracked and closed exactly once
   * afterwards, and its buffer never holds more than the configured size.
   */
  lemma {:induction false} ClosedExactlyOnce<T>(bufferSize: int, onDrop: bool, run: seq<Step<T>>, id: nat)
    requires ValidRun(Start<T>(bufferSize, onDrop), run)
    requires id < |Exec(Start<T>(bufferSize, onDrop), run).hub.chans|
    ensures var h := Exec(Start<T>(bufferSize, onDrop), run).hub;
            && h.chans[id].closes == (if id in Tracked(h) then 0 else 1)
            && |h.chans[id].buf| <= BufferSize(bufferSize)
  {
    RunKeepsInv(Start<T>(bufferSize, onDrop), run);
    CapacityFixed(Start<T>(bufferSize, onDrop), run);
  }

  lemma StepShrinks<T>(s: System<T>, step: Step<T>)
    requires Inv(s) && Enabled(s, step) && s.drains != []
    ensures Apply(s, step).drains != []
    ensures Tracked(Apply(s, step).hub) <= Tracked(s.hub)
  {
    var first := s.drains[0];
    assert s.hub.subs.Some? ==> s.hub.draining;
  }

  /** Once any Shutdown has taken its snapshot, the tracked set only shrinks. */
  lemma {:induction false} TrackedOnlyShrinks<T>(s: System<T>, run: seq<Step<T>>)
    requires Inv(s) && s.drains != [] && ValidRun(s, run)
    ensures Exec(s, run).drains != []
    ensures Tracked(Exec(s, run).hub) <= Tracked(s.hub)
    decreases |run|
  {
    if run != [] {
      var n := |run| - 1;
      TrackedOnlyShrinks(s, run[..n]);
      RunKeepsInv(s, run[..n]);
      StepShrinks(Exec(s, run[..n]), run[n]);
    }
  }

  /** Ending a Shutdown closes every registered channel and loses none. */
  lemma ShutdownStrandsNobody<T>(s: System<T>, d: nat)
    requires Inv(s) && Enabled(s, EndShutdown(d))
    ensures var h := Apply(s, EndShutdown(d)).hub;
            && h.subs.None?
            && |h.chans| == |s.hub.chans|
            && forall i :: 0 <= i < |h.chans| ==> h.chans[i].closes == 1
  {
  }

  // --------------------------------------------------------- leaving for good

  lemma StepStaysOut<T>(s: System<T>, step: Step<T>, id: nat)
    requires Enabled(s, step) && id < |s.hub.chans| && id !in Tracked(s.hub)
    ensures var h := Apply(s, step).hub; id < |h.chans| && id !in Tracked(h)
  {
  }

  /** A channel that is not tracked never is again. */
  lemma {:induction false} StaysOut<T>(s: System<T>, run: seq<Step<T>>, id: nat)
    requires ValidRun(s, run) && id < |s.hub.chans| && id !in Tracked(s.hub)
    ensures var h := Exec(s, run).hub; id < |h.chans| && id !in Tracked(h)
    decreases |run|
  {
    if run != [] {
      var n := |run| - 1;
      StaysOut(s, run[..n], id);
      StepStaysOut(Exec(s, run[..n]), run[n], id);
    }
  }

  /** Whatever follows an Unsubscribe, the channel is closed exactly once and never tracked again. */
  lemma {:induction false} UnsubscribedForGood<T>(s: System<T>, id: nat, run: seq<Step<T>>)
    requires Inv(s) && id < |s.hub.chans| && Enabled(s, Unsubscribe(id)) && ValidRun(Apply(s, Unsubscribe(id)), run)
    ensures var h := Exec(Apply(s, Unsubscribe(id)), run).hub;
            id < |h.chans| && id !in Tracked(h) && h.chans[id].closes == 1
  {
    var left := Apply(s, Unsubscribe(id));
    StepKeepsInv(s, Unsubscribe(id));
    StaysOut(left, run, id);
    RunKeepsInv(left, run);
  }

  lemma StepStaysClosed<T>(s: System<T>, step: Step<T>)
    requires Enabled(s, step) && s.hub.subs.None?
    ensures Apply(s, step).hub.subs.None?
  {
  }

  /** A closed hub stays closed: nobody can join, and every channel, later ones too, is closed exactly once. */
  lemma {:induction false} StaysClosed<T>(s: System<T>, run: seq<Step<T>>)
    requires Inv(s) && s.hub.subs.None? && ValidRun(s, run)
    ensures var h := Exec(s, run).hub;
            && h.subs.None? && Tracked(h) == {}
            && forall i :: 0 <= i < |h.chans| ==> h.chans[i].closes == 1
    decreases |run|
  {
    if run != [] {
      var n := |run| - 1;
      StaysClosed(s, run[..n]);
      StepStaysClosed(Exec(s, run[..n]), run[n]);
    }
    RunKeepsInv(s, run);
  }

  /** That is the case after a Close and after a Shutdown that came to its end. */
  lemma ClosingIsFinal<T>(s: System<T>, step: Step<T>, run: seq<Step<T>>)
    requires Inv(s) && (step.Close? || step.EndShutdown?) && Enabled(s, step) && ValidRun(Apply(s, step), run)
    ensures var h := Exec(Apply(s, step), run).hub;
            && h.subs.None? && Tracked(h) == {}
            && forall i :: 0 <= i < |h.chans| ==> h.chans[i].closes == 1
  {
    StepKeepsInv(s, step);
    StaysClosed(Apply(s, step), run);
  }

  /** A Shutdown of a closed hub returns nil at once; a cancelled one closes nothing and leaves the hub draining. */
  lemma ShutdownOutcomes<T>(s: System<T>, step: Step<T>)
    requires Inv(s) && Enabled(s, step)
    ensures step.BeginShutdown? && s.hub.subs.None? ==>
            var s' := Apply(s, step); s'.hub == s.hub && s'.drains[|s.drains|].pc == Returned(true)
    ensures step.Cancel? ==>
            var s' := Apply(s, step);
            && s'.hub == s.hub && s'.drains[step.d].pc == Returned(false)
            && (s'.hub.subs.Some? ==> s'.hub.draining)
  {
    if step.Cancel? {
      DrainingIfDrains(s);
    }
  }

  // ---------------------------------------------------------------- histories

  /** The message that an `Offer` step carries. */
  ghost function MessageOf<T>(s: System<T>, step: Step<T>): T
    requires Enabled(s, step) && step.Offer?
  {
    s.flights[step.f].batch[s.flights[step.f].next]
  }

  /** The step puts a message into the buffer of channel `id`. */
  ghost predicate Accepts<T>(s: System<T>, step: Step<T>, id: nat)
    requires Enabled(s, step)
  {
    && step.Offer? && step.id == id && Open(s.hub, id)
    && Matches(s.hub.chans[id], MessageOf(s, step))
    && |s.hub.chans[id].buf| < s.hub.capacity
  }

  /** The step finds a matching channel whose buffer holds `capacity` items. */
  ghost predicate Loses<T>(s: System<T>, step: Step<T>)
    requires Enabled(s, step)
  {
    && step.Offer? && Open(s.hub, step.id)
    && Matches(s.hub.chans[step.id], MessageOf(s, step))
    && |s.hub.chans[step.id].buf| >= s.hub.capacity
  }

  /** A matching message either enters the buffer or is lost, and no other message does either. */
  lemma AcceptedOrLost<T>(s: System<T>, step: Step<T>)
    requires Inv(s) && Enabled(s, step) && step.Offer?
    ensures step.id < |s.hub.chans|
    ensures Accepts(s, step, step.id) || Loses(s, step) <==> Matches(s.hub.chans[step.id], MessageOf(s, step))
    ensures !(Accepts(s, step, step.id) && Loses(s, step))
  {
  }

  /** What the step adds to, and takes out of, the buffer of channel `id`. */
  ghost function Added<T>(s: System<T>, step: Step<T>, id: nat): seq<T>
    requires Enabled(s, step)
  {
    if Accepts(s, step, id) then [MessageOf(s, step)] else []
  }

  ghost function Taken<T>(s: System<T>, step: Step<T>, id: nat): seq<T>
    requires Enabled(s, step)
  {
    if step.Receive? && step.id == id then [s.hub.chans[id].buf[0]] else []
  }

  /** The messages that entered channel `id` during a run, in order. */
  ghost function Accepted<T>(s: System<T>, run: seq<Step<T>>, id: nat): seq<T>
    requires ValidRun(s, run)
    decreases |run|
  {
    if run == [] then [] else
      var n := |run| - 1;
      Accepted(s, run[..n], id) + Added(Exec(s, run[..n]), run[n], id)
  }

  /** The messages that the consumer of channel `id` took out during a run, in order. */
  ghost function Received<T>(s: System<T>, run: seq<Step<T>>, id: nat): seq<T>
    requires ValidRun(s, run)
    decreases |run|
  {
    if run == [] then [] else
      var n := |run| - 1;
      Received(s, run[..n], id) + Taken(Exec(s, run[..n]), run[n], id)
  }

  /** Whether the drop callback is set after a run: the last setting counts. */
  ghost function CallbackSet<T>(initially: bool, run: seq<Step<T>>): bool {
    if run == [] then initially
    else if run[|run| - 1].SetOnDrop? then run[|run| - 1].on
    else CallbackSet(initially, run[..|run| - 1])
  }

  /**
   * The messages lost to full buffers while the callback was set, one entry per
   * subscriber that lost it.
   */
  ghost function Reportable<T>(s: System<T>, run: seq<Step<T>>): seq<T>
    requires ValidRun(s, run)
    decreases |run|
  {
    if run == [] then [] else
      var n := |run| - 1;
      var before := Exec(s, run[..n]);
      Reportable(s, run[..n]) +
      if CallbackSet(s.hub.onDrop, run[..n]) && Loses(before, run[n]) then [MessageOf(before, run[n])] else []
  }

  lemma StepConserves<T>(s: System<T>, step: Step<T>, id: nat)
    requires Inv(s) && Enabled(s, step)
    ensures Taken(s, step, id) + Buffer(Apply(s, step).hub, id) == Buffer(s.hub, id) + Added(s, step, id)
  {
  }

  lemma Rechain<T>(received: seq<T>, out: seq<T>, buf': seq<T>, buf: seq<T>, accepted: seq<T>, more: seq<T>, start: seq<T>)
    requires received + buf == start + accepted
    requires out + buf' == buf + more
    ensures received + out + buf' == start + (accepted + more)
  {
    assert received + out + buf' == received + (out + buf');
    assert received + (buf + more) == (received + buf) + more;
    assert (start + accepted) + more == start + (accepted + more);
  }

  /**
   * Conservation: over any run, what was received followed by what is buffered
   * is what was buffered at first followed by what was accepted, in order.
   */
  lemma {:induction false} Conservation<T>(s: System<T>, run: seq<Step<T>>, id: nat)
    requires Inv(s) && ValidRun(s, run)
    ensures Received(s, run, id) + Buffer(Exec(s, run).hub, id) == Buffer(s.hub, id) + Accepted(s, run, id)
    decreases |run|
  {
    if run == [] {
      assert [] + Buffer(s.hub, id) == Buffer(s.hub, id) + [];
    } else {
      var n := |run| - 1;
      var before, step := Exec(s, run[..n]), run[n];
      Conservation(s, run[..n], id);
      RunKeepsInv(s, run[..n]);
      StepConserves(before, step, id);
      Rechain(Received(s, run[..n], id), Taken(before, step, id),
              Buffer(Exec(s, run).hub, id), Buffer(before.hub, id),
              Accepted(s, run[..n], id), Added(before, step, id), Buffer(s.hub, id));
    }
  }

  /** The calls of the callback are exactly the messages lost while it was set, in order. */
  lemma {:induction false} DropsAreReported<T>(s: System<T>, run: seq<Step<T>>)
    requires Inv(s) && ValidRun(s, run)
    ensures Exec(s, run).hub.onDrop == CallbackSet(s.hub.onDrop, run)
    ensures Exec(s, run).hub.drops == s.hub.drops + Reportable(s, run)
    decreases |run|
  {
    if run != [] {
      var n := |run| - 1;
      var before, step := Exec(s, run[..n]), run[n];
      DropsAreReported(s, run[..n]);
      RunKeepsInv(s, run[..n]);
      StepReports(before, step);
      Regroup(s.hub.drops, Reportable(s, run[..n]), Report(before, step));
    }
  }

  ghost function Report<T>(s: System<T>, step: Step<T>): seq<T>
    requires Enabled(s, step)
  {
    if s.hub.onDrop && Loses(s, step) then [MessageOf(s, step)] else []
  }

  lemma StepReports<T>(s: System<T>, step: Step<T>)
    requires Inv(s) && Enabled(s, step)
    ensures Apply(s, step).hub.onDrop == if step.SetOnDrop? then step.on else s.hub.onDrop
    ensures Apply(s, step).hub.drops == s.hub.drops + Report(s, step)
  {
  }
}
