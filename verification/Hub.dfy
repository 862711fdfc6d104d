/**
 * The fan-out hub (fanout.go): its state and what each lock-guarded section
 * does to it, first as functions on values and then as the in-place methods.
 */
module Hub {
  import opened Options

  const DEFAULT_SUBSCRIBER_BUFFER: nat := 64

  /** `WithBufferSize` and `effectiveBufferSize`: non-positive values keep the default. */
  function BufferSize(configured: int): (n: nat)
    ensures n > 0
    ensures configured > 0 ==> n == configured
    ensures configured <= 0 ==> n == 64
  {
    if configured > 0 then configured else DEFAULT_SUBSCRIBER_BUFFER
  }

  /** The outcome of calling a predicate; a panic is recovered. */
  datatype Verdict = Yes | No | Panics

  /** A subscriber channel: predicate (none: all messages), buffer, number of closes. */
  datatype Chan<!T> = Chan(pred: Option<T -> Verdict>, buf: seq<T>, closes: nat)

  /**
   * The hub. Channels are numbered in order of creation, which stands for their
   * pointer identity; `subs` is `None` once the subscriber map is nil.
   */
  datatype State<!T> = State(
    capacity: nat,
    chans: seq<Chan<T>>,
    subs: Option<set<nat>>,
    draining: bool,
    onDrop: bool,
    drops: seq<T>)

  function Fresh<T>(capacity: nat, onDrop: bool): State<T> {
    State(capacity, [], Some({}), false, onDrop, [])
  }

  function Tracked<T>(h: State<T>): set<nat> {
    if h.subs.None? then {} else h.subs.value
  }

  /** `safePredCall`, with the nil test of its callers. */
  predicate Matches<T>(c: Chan<T>, msg: T) {
    c.pred.None? || c.pred.value(msg) == Yes
  }

  // ------------------------------------------------------- sending a message

  predicate Full<T>(h: State<T>, c: Chan<T>) {
    |c.buf| >= h.capacity
  }

  /** The non-blocking send of `msg` to one channel. */
  function Push<T>(h: State<T>, c: Chan<T>, msg: T): Chan<T> {
    if Matches(c, msg) && !Full(h, c) then c.(buf := c.buf + [msg]) else c
  }

  predicate Drops<T>(h: State<T>, c: Chan<T>, msg: T) {
    Matches(c, msg) && Full(h, c)
  }

  /** One iteration of `sendAllLocked`. */
  function AfterOffer<T>(h: State<T>, id: nat, msg: T): State<T>
    requires id < |h.chans|
  {
    var c := h.chans[id];
    h.(chans := h.chans[id := Push(h, c, msg)],
       drops := if h.onDrop && Drops(h, c, msg) then h.drops + [msg] else h.drops)
  }

  function Repeat<T>(x: T, n: nat): (s: seq<T>)
    ensures |s| == n && forall i :: 0 <= i < n ==> s[i] == x
  {
    if n == 0 then [] else Repeat(x, n - 1) + [x]
  }

  /** The channels among `ids` that drop `msg`. */
  ghost function Dropping<T>(h: State<T>, msg: T, ids: set<nat>): set<nat> {
    set i | i in ids && i < |h.chans| && Drops(h, h.chans[i], msg)
  }

  /** The hub after `msg` has been offered to the channels `done`, in whatever order. */
  ghost function Offered<T>(h: State<T>, msg: T, done: set<nat>): State<T> {
    h.(chans := seq(|h.chans|, i requires 0 <= i < |h.chans| =>
                      if i in done then Push(h, h.chans[i], msg) else h.chans[i]),
       drops := h.drops + if h.onDrop then Repeat(msg, |Dropping(h, msg, done)|) else [])
  }

  /** A broadcast of one message. */
  ghost function FanOne<T>(h: State<T>, msg: T): State<T> {
    Offered(h, msg, Tracked(h))
  }

  /** A broadcast of a batch: its messages one after the other. */
  ghost function FanMany<T>(h: State<T>, msgs: seq<T>): State<T> {
    if msgs == [] then h else FanOne(FanMany(h, msgs[..|msgs| - 1]), msgs[|msgs| - 1])
  }

  lemma OfferedNone<T>(h: State<T>, msg: T)
    ensures Offered(h, msg, {}) == h
  {
  }

  /** The order of the offers does not matter: the next one just joins the set. */
  lemma OfferedStep<T>(h: State<T>, msg: T, done: set<nat>, id: nat)
    requires id < |h.chans| && id !in done
    ensures AfterOffer(Offered(h, msg, done), id, msg) == Offered(h, msg, done + {id})
  {
    var g := Offered(h, msg, done);
    assert AfterOffer(g, id, msg).chans == Offered(h, msg, done + {id}).chans;
    if Drops(h, h.chans[id], msg) {
      assert Dropping(h, msg, done + {id}) == Dropping(h, msg, done) + {id};
      assert Repeat(msg, |Dropping(h, msg, done)| + 1) == Repeat(msg, |Dropping(h, msg, done)|) + [msg];
    } else {
      assert Dropping(h, msg, done + {id}) == Dropping(h, msg, done);
    }
  }

  // --------------------------------------------------- lifecycle of channels

  function CloseChan<T>(c: Chan<T>): Chan<T> {
    c.(closes := c.closes + 1)
  }

  ghost function CloseAll<T>(chans: seq<Chan<T>>, ids: set<nat>): (r: seq<Chan<T>>)
    ensures |r| == |chans|
    ensures forall i :: 0 <= i < |chans| ==> r[i] == if i in ids then CloseChan(chans[i]) else chans[i]
  {
    seq(|chans|, i requires 0 <= i < |chans| => if i in ids then CloseChan(chans[i]) else chans[i])
  }

  /** `SubscribeFilter`: the new channel is the last one; it is born closed when not accepted. */
  function AfterSubscribe<T>(h: State<T>, pred: Option<T -> Verdict>): State<T> {
    if h.subs.None? || h.draining then
      h.(chans := h.chans + [Chan(pred, [], 1)])
    else
      h.(chans := h.chans + [Chan(pred, [], 0)], subs := Some(h.subs.value + {|h.chans|}))
  }

  function AfterUnsubscribe<T>(h: State<T>, id: nat): State<T>
    requires id in Tracked(h) ==> id < |h.chans|
  {
    if id in Tracked(h) then
      h.(chans := h.chans[id := CloseChan(h.chans[id])], subs := Some(h.subs.value - {id}))
    else h
  }

  /** `closeLocked`. */
  ghost function AfterClose<T>(h: State<T>): State<T> {
    h.(chans := CloseAll(h.chans, Tracked(h)), subs := None)
  }

  /** The first section of `Shutdown`, when the hub is not closed yet. */
  function AfterBegin<T>(h: State<T>): State<T> {
    if h.subs.None? then h else h.(draining := true)
  }

  ghost function Elements(s: seq<nat>): set<nat> {
    set i | 0 <= i < |s| :: s[i]
  }

  /** The second section of `Shutdown`: only channels of its own snapshot are closed. */
  ghost function AfterFinish<T>(h: State<T>, snapshot: seq<nat>): State<T> {
    h.(chans := CloseAll(h.chans, Tracked(h) * Elements(snapshot)), subs := None, draining := false)
  }

  /** What every section keeps: tracked channels are open, all others closed exactly once. */
  ghost predicate Sound<T>(h: State<T>) {
    && (forall i :: i in Tracked(h) ==> i < |h.chans|)
    && (forall i :: 0 <= i < |h.chans| ==> h.chans[i].closes == if i in Tracked(h) then 0 else 1)
    && (forall i :: 0 <= i < |h.chans| ==> |h.chans[i].buf| <= h.capacity)
  }

  // ----------------------------------------------------- the in-place object

  class FanOut<T> {
    const capacity: nat
    var chans: seq<Chan<T>>
    var subs: Option<set<nat>>
    var draining: bool
    var onDrop: bool
    var drops: seq<T>

    constructor (bufferSize: int, onDrop: bool)
      ensures Value() == Fresh(BufferSize(bufferSize), onDrop) && Sound(Value())
    {
      capacity := BufferSize(bufferSize);
      chans, subs, draining, this.onDrop, drops := [], Some({}), false, onDrop, [];
    }

    ghost function Value(): State<T>
      reads this
    {
      State(capacity, chans, subs, draining, onDrop, drops)
    }

    method SubscribeFilter(pred: Option<T -> Verdict>) returns (id: nat)
      requires Sound(Value())
      modifies this
      ensures Value() == AfterSubscribe(old(Value()), pred) && Sound(Value())
      ensures id == |old(chans)| && |chans| == id + 1 && chans[..id] == old(chans)
      ensures old(subs.Some? && !draining) ==>
              chans[id] == Chan(pred, [], 0) && subs == Some(old(subs).value + {id})
      ensures old(subs.None? || draining) ==> chans[id] == Chan(pred, [], 1) && subs == old(subs)
      ensures draining == old(draining) && onDrop == old(onDrop) && drops == old(drops)
    {
      id := |chans|;
      var ch := Chan(pred, [], 0);
      if subs.None? || draining {
        chans := chans + [CloseChan(ch)];
        assert Tracked(Value()) == old(Tracked(Value()));
        return;
      }
      chans := chans + [ch];
      subs := Some(subs.value + {id});
      assert Tracked(Value()) == old(Tracked(Value())) + {id};
    }

    method Unsubscribe(id: nat) returns (ok: bool)
      requires Sound(Value())
      modifies this
      ensures Value() == AfterUnsubscribe(old(Value()), id) && Sound(Value())
      ensures ok <==> old(subs).Some? && id in old(subs).value
      ensures ok ==> id < |old(chans)| && chans == old(chans)[id := old(chans)[id].(closes := 1)] && subs == Some(old(subs).value - {id})
      ensures !ok ==> chans == old(chans) && subs == old(subs)
      ensures draining == old(draining) && onDrop == old(onDrop) && drops == old(drops)
    {
      ok := subs.Some? && id in subs.value;
      if ok {
        subs := Some(subs.value - {id});
        CloseChannel(id);
      }
    }

    /** `close(ch)` panics on a closed channel; here that is a precondition. */
    method CloseChannel(id: nat)
      requires id < |chans| && chans[id].closes == 0
      modifies this`chans
      ensures chans == old(chans)[id := CloseChan(old(chans)[id])]
    {
      chans := chans[id := CloseChan(chans[id])];
    }

    /** A send, which panics on a closed channel, inside a `select` with a default. */
    method TrySend(id: nat, msg: T)
      requires id < |chans| && chans[id].closes == 0
      modifies this`chans, this`drops
      ensures Value() == AfterOffer(old(Value()), id, msg)
      // it enters if the channel has no predicate or one that answers yes, and there is room
      ensures var c := old(chans)[id];
              var wanted := c.pred.None? || c.pred.value(msg) == Yes;
              && chans == old(chans)[id := if wanted && |c.buf| < capacity then c.(buf := c.buf + [msg]) else c]
              && drops == if wanted && |c.buf| >= capacity && onDrop then old(drops) + [msg] else old(drops)
    {
      var c := chans[id];
      if c.pred.Some? && c.pred.value(msg) != Yes {
        assert chans == chans[id := c];
        return;
      }
      if |c.buf| < capacity {
        chans := chans[id := c.(buf := c.buf + [msg])];
      } else {
        assert chans == chans[id := c];
        if onDrop {
          drops := drops + [msg];
        }
      }
    }

    /** The map is visited in an arbitrary order; the outcome does not depend on it. */
    method SendAllLocked(msg: T)
      requires Sound(Value())
      modifies this`chans, this`drops
      ensures Value() == FanOne(old(Value()), msg) && Sound(Value())
      ensures |chans| == |old(chans)|
      ensures forall i :: 0 <= i < |chans| ==>
              var c := old(chans)[i];
              var wanted := subs.Some? && i in subs.value && (c.pred.None? || c.pred.value(msg) == Yes);
              chans[i] == if wanted && |c.buf| < capacity then c.(buf := c.buf + [msg]) else c
    {
      if subs.None? {
        OfferedNone(Value(), msg);
        return;
      }
      var todo := subs.value;
      ghost var done: set<nat> := {};
      OfferedNone(Value(), msg);
      while todo != {}
        invariant done + todo == subs.value && done !! todo
        invariant Value() == Offered(old(Value()), msg, done)
        decreases todo
      {
        var id :| id in todo;
        OfferedStep(old(Value()), msg, done, id);
        TrySend(id, msg);
        todo, done := todo - {id}, done + {id};
      }
      assert done == subs.value;
    }

    method BroadcastMany(msgs: seq<T>)
      requires Sound(Value())
      modifies this`chans, this`drops
      ensures Value() == FanMany(old(Value()), msgs) && Sound(Value())
    {
      for i := 0 to |msgs|
        invariant Sound(Value()) && Value() == FanMany(old(Value()), msgs[..i])
      {
        assert msgs[..i + 1][..i] == msgs[..i];
        SendAllLocked(msgs[i]);
      }
      assert msgs[..|msgs|] == msgs;
    }

    method CloseLocked()
      requires Sound(Value())
      modifies this
      ensures Value() == AfterClose(old(Value())) && Sound(Value())
      ensures subs == None && |chans| == |old(chans)|
      ensures forall i :: 0 <= i < |chans| ==> chans[i] == old(chans)[i].(closes := 1)
      ensures draining == old(draining) && onDrop == old(onDrop) && drops == old(drops)
    {
      var todo := if subs.None? then {} else subs.value;
      ghost var all, done := todo, {};
      assert chans == CloseAll(old(chans), {});
      while todo != {}
        invariant done + todo == all && done !! todo
        invariant subs == if old(subs).None? then None else Some(todo)
        invariant chans == CloseAll(old(chans), done)
        invariant draining == old(draining) && onDrop == old(onDrop) && drops == old(drops)
        decreases todo
      {
        var id :| id in todo;
        todo, done := todo - {id}, done + {id};
        subs := Some(todo);
        CloseChannel(id);
      }
      subs := None;
      assert done == all;
    }

    /** First section of `Shutdown`; the snapshot lists the map in an arbitrary order. */
    method BeginShutdown() returns (snapshot: Option<seq<nat>>)
      requires Sound(Value())
      modifies this`draining
      ensures Value() == AfterBegin(old(Value())) && Sound(Value())
      ensures snapshot.None? <==> subs.None?
      ensures snapshot.Some? ==> Elements(snapshot.value) == subs.value
      ensures draining == (old(draining) || subs.Some?)
    {
      if subs.None? {
        return None;
      }
      var order: seq<nat> := [];
      var todo := subs.value;
      while todo != {}
        invariant Elements(order) + todo == subs.value
        decreases todo
      {
        var id :| id in todo;
        todo := todo - {id};
        ElementsSnoc(order, id);
        order := order + [id];
      }
      draining := true;
      return Some(order);
    }

    /** One pass of the polling loop of `waitForDrain`. */
    method CountPending(snapshot: seq<nat>) returns (notDrained: nat)
      requires forall i :: 0 <= i < |snapshot| ==> snapshot[i] < |chans|
      ensures notDrained == 0 <==> forall i :: 0 <= i < |snapshot| ==> chans[snapshot[i]].buf == []
    {
      notDrained := 0;
      for i := 0 to |snapshot|
        invariant notDrained == 0 <==> forall j :: 0 <= j < i ==> chans[snapshot[j]].buf == []
      {
        if |chans[snapshot[i]].buf| > 0 {
          notDrained := notDrained + 1;
        }
      }
    }

    /**
     * Second section of `Shutdown`; a subscriber that left in between is skipped.
     * No channel is left behind open exactly when the snapshot covers the map.
     */
    method FinishShutdown(snapshot: seq<nat>)
      requires Sound(Value())
      modifies this
      ensures Value() == AfterFinish(old(Value()), snapshot)
      ensures Sound(Value()) <==> old(Tracked(Value())) <= Elements(snapshot)
      ensures subs == None && !draining && onDrop == old(onDrop) && drops == old(drops)
      ensures |chans| == |old(chans)|
      ensures forall i :: 0 <= i < |chans| ==>
              chans[i] == if i in old(Tracked(Value())) && i in Elements(snapshot) then old(chans)[i].(closes := 1) else old(chans)[i]
    {
      ghost var h, all := Value(), Tracked(Value());
      assert chans == CloseAll(old(chans), {});
      for i := 0 to |snapshot|
        invariant Tracked(Value()) == all - Elements(snapshot[..i])
        invariant subs.None? ==> old(subs).None?
        invariant chans == CloseAll(old(chans), all * Elements(snapshot[..i]))
        invariant draining == old(draining) && onDrop == old(onDrop) && drops == old(drops)
      {
        assert snapshot[..i + 1] == snapshot[..i] + [snapshot[i]];
        ElementsSnoc(snapshot[..i], snapshot[i]);
        if subs.Some? && snapshot[i] in subs.value {
          subs := Some(subs.value - {snapshot[i]});
          CloseChannel(snapshot[i]);
        }
      }
      assert snapshot[..|snapshot|] == snapshot;
      subs, draining := None, false;
      ClosedOnce(h, all * Elements(snapshot));
    }
  }

  lemma ClosedOnce<T>(h: State<T>, ids: set<nat>)
    requires Sound(h) && ids <= Tracked(h)
    ensures forall i :: 0 <= i < |h.chans| ==>
            CloseAll(h.chans, ids)[i] == if i in ids then h.chans[i].(closes := 1) else h.chans[i]
  {
  }

  lemma ElementsSnoc(s: seq<nat>, x: nat)
    ensures Elements(s + [x]) == Elements(s) + {x}
  {
    var t := s + [x];
    assert t[|s|] == x;
    assert forall i :: 0 <= i < |s| ==> t[i] == s[i];
    forall y | y in Elements(s) + {x} ensures y in Elements(t) {
      if y in Elements(s) {
        var i :| 0 <= i < |s| && s[i] == y;
        assert t[i] == y;
      }
    }
  }
}
