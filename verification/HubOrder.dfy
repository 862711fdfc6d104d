/** Order of delivery: one broadcast among others, and a broadcast on its own. */
module HubOrder {
  import opened Options
  import opened Hub
  import opened HubRuns

  // ------------------------------------------------------- among broadcasters

  /** The messages that broadcast `f` offered to channel `id`, in order. */
  ghost function Visits<T>(s: System<T>, run: seq<Step<T>>, f: nat, id: nat): seq<T>
    requires ValidRun(s, run)
    decreases |run|
  {
    if run == [] then [] else
      var n := |run| - 1;
      Visits(s, run[..n], f, id) + Visit(Exec(s, run[..n]), run[n], f, id)
  }

  ghost function Visit<T>(s: System<T>, step: Step<T>, f: nat, id: nat): seq<T>
    requires Enabled(s, step)
  {
    if step.Offer? && step.f == f && step.id == id then [MessageOf(s, step)] else []
  }

  /** Those of them that found room, again in order. */
  ghost function AcceptedFrom<T>(s: System<T>, run: seq<Step<T>>, f: nat, id: nat): seq<T>
    requires ValidRun(s, run)
    decreases |run|
  {
    if run == [] then [] else
      var n := |run| - 1;
      var before := Exec(s, run[..n]);
      AcceptedFrom(s, run[..n], f, id) +
      if Accepts(before, run[n], id) && run[n].f == f then Visit(before, run[n], f, id) else []
  }

  /** How far broadcast `f` has got with channel `id`. */
  ghost predicate Progress<T>(s: System<T>, f: nat, id: nat, visits: seq<T>) {
    if f >= |s.flights| then
      visits == []
    else
      var fl := s.flights[f];
      && fl.next <= |fl.batch|
      && (fl.active ==> fl.audience == Tracked(s.hub))
      && if id !in fl.audience then visits == []
         else if !fl.active then visits == fl.batch
         else if fl.next == |fl.batch| || id in fl.todo then visits == fl.batch[..fl.next]
         else visits == fl.batch[..fl.next + 1]
  }

  lemma NothingAdded<T>(visits: seq<T>)
    ensures visits + [] == visits
  {
  }

  lemma OwnStepProgress<T>(s: System<T>, step: Step<T>, f: nat, id: nat, visits: seq<T>)
    requires Inv(s) && Enabled(s, step) && Progress(s, f, id, visits) && f < |s.flights|
    requires step == NextMessage(f) || step == EndBroadcast(f)
    ensures Progress(Apply(s, step), f, id, visits)
  {
  }

  lemma OfferProgress<T>(s: System<T>, step: Step<T>, f: nat, id: nat, visits: seq<T>)
    requires Inv(s) && Enabled(s, step) && step.Offer? && Progress(s, f, id, visits)
    ensures Progress(Apply(s, step), f, id, visits + Visit(s, step, f, id))
  {
  }

  lemma LockedStepProgress<T>(s: System<T>, step: Step<T>, f: nat, id: nat, visits: seq<T>)
    requires Enabled(s, step) && NeedsWriteLock(step) && Progress(s, f, id, visits)
    ensures Progress(Apply(s, step), f, id, visits)
  {
  }

  lemma FreeStepProgress<T>(s: System<T>, step: Step<T>, f: nat, id: nat, visits: seq<T>)
    requires Enabled(s, step) && !NeedsWriteLock(step) && !step.Offer? && Progress(s, f, id, visits)
    requires step != NextMessage(f) && step != EndBroadcast(f)
    ensures Progress(Apply(s, step), f, id, visits)
  {
  }

  lemma StepProgress<T>(s: System<T>, step: Step<T>, f: nat, id: nat, visits: seq<T>)
    requires Inv(s) && Enabled(s, step) && Progress(s, f, id, visits)
    ensures Progress(Apply(s, step), f, id, visits + Visit(s, step, f, id))
  {
    NothingAdded(visits);
    if step.Offer? {
      OfferProgress(s, step, f, id, visits);
    } else if NeedsWriteLock(step) {
      LockedStepProgress(s, step, f, id, visits);
    } else if f < |s.flights| && (step == NextMessage(f) || step == EndBroadcast(f)) {
      OwnStepProgress(s, step, f, id, visits);
    } else {
      FreeStepProgress(s, step, f, id, visits);
    }
  }

  lemma {:induction false} RunProgress<T>(s: System<T>, run: seq<Step<T>>, f: nat, id: nat)
    requires Inv(s) && ValidRun(s, run) && Progress(s, f, id, [])
    ensures Progress(Exec(s, run), f, id, Visits(s, run, f, id))
    decreases |run|
  {
    if run != [] {
      var n := |run| - 1;
      RunProgress(s, run[..n], f, id);
      RunKeepsInv(s, run[..n]);
      StepProgress(Exec(s, run[..n]), run[n], f, id, Visits(s, run[..n], f, id));
    }
  }

  /**
   * Whatever else is going on, a broadcast offers its batch to each tracked
   * channel message by message, in batch order, each exactly once.
   */
  lemma {:induction false} EachMessageOnceInOrder<T>(bufferSize: int, onDrop: bool, run: seq<Step<T>>, f: nat, id: nat)
    requires ValidRun(Start<T>(bufferSize, onDrop), run)
    ensures var s := Start<T>(bufferSize, onDrop);
            Progress(Exec(s, run), f, id, Visits(s, run, f, id))
  {
    RunProgress(Start<T>(bufferSize, onDrop), run, f, id);
  }

  // -------------------------------------------------- from Subscribe to message

  /** The step takes channel `id` out of the hub. */
  ghost predicate Removes<T>(step: Step<T>, id: nat) {
    step == Step.Unsubscribe(id) || step.Close? || step.EndShutdown?
  }

  lemma StepKeepsTracked<T>(s: System<T>, step: Step<T>, id: nat)
    requires Enabled(s, step) && id in Tracked(s.hub) && !Removes(step, id)
    ensures id in Tracked(Apply(s, step).hub)
  {
  }

  lemma {:induction false} StaysTracked<T>(s: System<T>, run: seq<Step<T>>, id: nat)
    requires ValidRun(s, run) && id in Tracked(s.hub)
    requires forall k :: 0 <= k < |run| ==> !Removes(run[k], id)
    ensures id in Tracked(Exec(s, run).hub)
    decreases |run|
  {
    if run != [] {
      var n := |run| - 1;
      StaysTracked(s, run[..n], id);
      StepKeepsTracked(Exec(s, run[..n]), run[n], id);
    }
  }

  ghost predicate SameBroadcast<T>(s: System<T>, s': System<T>, f: nat) {
    && f < |s.flights| && f < |s'.flights|
    && s'.flights[f].batch == s.flights[f].batch && s'.flights[f].audience == s.flights[f].audience
  }

  lemma StepSameBroadcast<T>(s: System<T>, step: Step<T>, f: nat)
    requires Enabled(s, step) && f < |s.flights|
    ensures SameBroadcast(s, Apply(s, step), f)
  {
  }

  lemma {:induction false} RunSameBroadcast<T>(s: System<T>, run: seq<Step<T>>, f: nat)
    requires ValidRun(s, run) && f < |s.flights|
    ensures SameBroadcast(s, Exec(s, run), f)
    decreases |run|
  {
    if run != [] {
      var n := |run| - 1;
      RunSameBroadcast(s, run[..n], f);
      StepSameBroadcast(Exec(s, run[..n]), run[n], f);
    }
  }

  /** A broadcast that begins while a channel is tracked offers it the whole batch, in order, by the time it ends. */
  lemma {:induction false} TrackedIsServed<T>(s: System<T>, batch: seq<T>, run: seq<Step<T>>, id: nat)
    requires Inv(s) && id in Tracked(s.hub) && ValidRun(Apply(s, BeginBroadcast(batch)), run)
    ensures var begun, f := Apply(s, BeginBroadcast(batch)), |s.flights|;
            && f < |Exec(begun, run).flights|
            && (!Exec(begun, run).flights[f].active ==> Visits(begun, run, f, id) == batch)
  {
    var begun, f := Apply(s, BeginBroadcast(batch)), |s.flights|;
    StepKeepsInv(s, BeginBroadcast(batch));
    assert begun.flights[f] == Flight(batch, Tracked(s.hub), 0, Tracked(s.hub), true);
    assert batch[..0] == [];
    RunProgress(begun, run, f, id);
    RunSameBroadcast(begun, run, f);
  }

  /**
   * Subscribing works: on a hub that is neither closed nor draining the new
   * channel is open, with the given predicate and nothing in it, and as long as
   * no Unsubscribe of it, Close or end of a Shutdown intervenes, a broadcast that
   * then begins offers it the whole batch.
   */
  lemma {:induction false} SubscriberIsServed<T>(s: System<T>, pred: Option<T -> Verdict>, between: seq<Step<T>>,
                                                 batch: seq<T>, run: seq<Step<T>>)
    requires Inv(s) && Enabled(s, Step.Subscribe(pred)) && s.hub.subs.Some? && !s.hub.draining
    requires ValidRun(Apply(s, Step.Subscribe(pred)), between)
    requires forall k :: 0 <= k < |between| ==> !Removes(between[k], |s.hub.chans|)
    requires var later := Exec(Apply(s, Step.Subscribe(pred)), between);
             ValidRun(Apply(later, BeginBroadcast(batch)), run)
    ensures Apply(s, Step.Subscribe(pred)).hub.chans == s.hub.chans + [Chan(pred, [], 0)]
    ensures var id, later := |s.hub.chans|, Exec(Apply(s, Step.Subscribe(pred)), between);
            var begun, f := Apply(later, BeginBroadcast(batch)), |later.flights|;
            && f < |Exec(begun, run).flights|
            && (!Exec(begun, run).flights[f].active ==> Visits(begun, run, f, id) == batch)
  {
    var joined := Apply(s, Step.Subscribe(pred));
    StepKeepsInv(s, Step.Subscribe(pred));
    StaysTracked(joined, between, |s.hub.chans|);
    RunKeepsInv(joined, between);
    TrackedIsServed(Exec(joined, between), batch, run, |s.hub.chans|);
  }

  /** `a` arises from `b` by leaving out elements. */
  ghost predicate Subsequence<T>(a: seq<T>, b: seq<T>) {
    if a == [] then true
    else if b == [] then false
    else
      || (a[|a| - 1] == b[|b| - 1] && Subsequence(a[..|a| - 1], b[..|b| - 1]))
      || Subsequence(a, b[..|b| - 1])
  }

  lemma SubsequenceSnoc<T>(a: seq<T>, b: seq<T>, x: T)
    requires Subsequence(a, b)
    ensures Subsequence(a, b + [x]) && Subsequence(a + [x], b + [x])
  {
  }

  lemma {:induction false} SubsequenceOfPrefix<T>(a: seq<T>, b: seq<T>, k: nat)
    requires k <= |b| && Subsequence(a, b[..k])
    ensures Subsequence(a, b)
    decreases |b| - k
  {
    if k == |b| {
      assert b[..k] == b;
    } else {
      SubsequenceSnoc(a, b[..k], b[k]);
      assert b[..k] + [b[k]] == b[..k + 1];
      SubsequenceOfPrefix(a, b, k + 1);
    }
  }

  lemma {:induction false} AcceptedAmongVisits<T>(s: System<T>, run: seq<Step<T>>, f: nat, id: nat)
    requires ValidRun(s, run)
    ensures Subsequence(AcceptedFrom(s, run, f, id), Visits(s, run, f, id))
    decreases |run|
  {
    if run != [] {
      var n := |run| - 1;
      var before := Exec(s, run[..n]);
      AcceptedAmongVisits(s, run[..n], f, id);
      var a, v := AcceptedFrom(s, run[..n], f, id), Visits(s, run[..n], f, id);
      NothingAdded(a);
      NothingAdded(v);
      if run[n].Offer? && run[n].f == f && run[n].id == id {
        SubsequenceSnoc(a, v, MessageOf(before, run[n]));
      }
    }
  }

  /** What a subscriber accepts from a batch is a subsequence of the batch. */
  lemma BatchOrder<T>(bufferSize: int, onDrop: bool, run: seq<Step<T>>, f: nat, id: nat)
    requires ValidRun(Start<T>(bufferSize, onDrop), run)
    requires f < |Exec(Start<T>(bufferSize, onDrop), run).flights|
    ensures var s := Start<T>(bufferSize, onDrop);
            Subsequence(AcceptedFrom(s, run, f, id), Exec(s, run).flights[f].batch)
  {
    var s := Start<T>(bufferSize, onDrop);
    var visits, batch := Visits(s, run, f, id), Exec(s, run).flights[f].batch;
    EachMessageOnceInOrder(bufferSize, onDrop, run, f, id);
    AcceptedAmongVisits(s, run, f, id);
    assert visits == batch[..|visits|];
    SubsequenceOfPrefix(AcceptedFrom(s, run, f, id), batch, |visits|);
  }

  // -------------------------------------------------------------- on its own

  /** The step belongs to broadcast `f`. */
  ghost predicate StepOf<T>(step: Step<T>, f: nat) {
    (step.Offer? || step.NextMessage? || step.EndBroadcast?) && step.f == f
  }

  /** Message by message, channel by channel: where the hub is in the course of a broadcast. */
  ghost function Midway<T>(h: State<T>, fl: Flight<T>): State<T>
    requires fl.next <= |fl.batch|
  {
    var g := FanMany(h, fl.batch[..fl.next]);
    if fl.next == |fl.batch| then g else Offered(g, fl.batch[fl.next], Tracked(h) - fl.todo)
  }

  lemma {:induction false} FanManyKeeps<T>(h: State<T>, msgs: seq<T>)
    ensures FanMany(h, msgs).subs == h.subs && |FanMany(h, msgs).chans| == |h.chans|
    decreases |msgs|
  {
    if msgs != [] {
      FanManyKeeps(h, msgs[..|msgs| - 1]);
    }
  }

  ghost predicate Alone<T>(h: State<T>, batch: seq<T>, f: nat, s: System<T>) {
    && f < |s.flights|
    && var fl := s.flights[f];
    && fl.batch == batch && fl.next <= |batch| && fl.todo <= Tracked(h)
    && s.hub == Midway(h, fl)
    && (!fl.active ==> fl.next == |batch|)
  }

  lemma SoloOffer<T>(h: State<T>, batch: seq<T>, f: nat, s: System<T>, id: nat)
    requires Inv(s) && Alone(h, batch, f, s) && Enabled(s, Offer(f, id))
    ensures Alone(h, batch, f, Apply(s, Offer(f, id)))
  {
    var fl := s.flights[f];
    var g, done := FanMany(h, batch[..fl.next]), Tracked(h) - fl.todo;
    FanManyKeeps(h, batch[..fl.next]);
    assert Tracked(s.hub) == Tracked(h);
    assert Open(s.hub, id);
    OfferedStep(g, batch[fl.next], done, id);
    assert done + {id} == Tracked(h) - (fl.todo - {id});
  }

  lemma SoloNext<T>(h: State<T>, batch: seq<T>, f: nat, s: System<T>)
    requires Inv(s) && Alone(h, batch, f, s) && Enabled(s, NextMessage(f))
    ensures Alone(h, batch, f, Apply(s, NextMessage(f)))
  {
    var fl := s.flights[f];
    FanManyKeeps(h, batch[..fl.next]);
    assert Tracked(s.hub) == Tracked(h);
    assert batch[..fl.next + 1][..fl.next] == batch[..fl.next];
    assert Tracked(h) - {} == Tracked(h);
    var g := FanMany(h, batch[..fl.next + 1]);
    assert s.hub == g;
    if fl.next + 1 < |batch| {
      assert Tracked(h) - Tracked(h) == {};
      OfferedNone(g, batch[fl.next + 1]);
    }
  }

  lemma SoloBegins<T>(s: System<T>, batch: seq<T>)
    requires Inv(s)
    ensures Alone(s.hub, batch, |s.flights|, Apply(s, BeginBroadcast(batch)))
  {
  }

  lemma {:induction false} SoloRun<T>(h: State<T>, batch: seq<T>, f: nat, s: System<T>, run: seq<Step<T>>)
    requires Inv(s) && Alone(h, batch, f, s) && ValidRun(s, run)
    requires forall k :: 0 <= k < |run| ==> StepOf(run[k], f)
    ensures Alone(h, batch, f, Exec(s, run))
    decreases |run|
  {
    if run != [] {
      var n := |run| - 1;
      var before, step := Exec(s, run[..n]), run[n];
      SoloRun(h, batch, f, s, run[..n]);
      RunKeepsInv(s, run[..n]);
      assert StepOf(step, f);
      if step.Offer? {
        SoloOffer(h, batch, f, before, step.id);
      } else if step.NextMessage? {
        SoloNext(h, batch, f, before);
      }
    }
  }

  /**
   * A batch broadcast that runs alone ends, for every iteration order of the
   * map, with the buffers and drop log of broadcasting its messages one by one.
   */
  lemma OrderIndependence<T>(s: System<T>, batch: seq<T>, run: seq<Step<T>>)
    requires Inv(s) && ValidRun(Apply(s, BeginBroadcast(batch)), run)
    requires forall k :: 0 <= k < |run| ==> StepOf(run[k], |s.flights|)
    requires var s' := Exec(Apply(s, BeginBroadcast(batch)), run);
             |s.flights| < |s'.flights| && !s'.flights[|s.flights|].active
    ensures Exec(Apply(s, BeginBroadcast(batch)), run).hub == FanMany(s.hub, batch)
  {
    StepKeepsInv(s, BeginBroadcast(batch));
    SoloBegins(s, batch);
    SoloRun(s.hub, batch, |s.flights|, Apply(s, BeginBroadcast(batch)), run);
    assert batch[..|batch|] == batch;
  }
}
