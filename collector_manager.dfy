/**
 * CollectorManager.ts: registers collectors, subscribes one handler per event
 * name, and removes collectors from its list as they complete.
 *
 * Removal happens in two places, both with indices reproduced as written: the
 * event handler splices position `i` of the FILTERED snapshot it iterates out
 * of the full list whenever `validate` returns true, and the `.then` callback on
 * the promise splices the position the collector had when it was REGISTERED.
 * A firing of the handler is one step here (`Fire`); the `.then` callbacks of the
 * promises it settled run right after it, in the order they settled, as the
 * microtask queue does. The timer callback is the step `TimerFires`.
 */
module CollectorManagers {
  import opened Js
  import opened Collectors
  import MessageCollectors
  import ReactionCollectors

  /** `target.process(...args)`, by subclass. */
  function Process(c: Collector, args: seq<Value>): Value {
    match c.kind
    case MessageKind => MessageCollectors.Process(args)
    case ReactionKind => ReactionCollectors.Process(args)
  }

  predicate Distinct(cs: seq<Collector>) {
    forall i, j :: 0 <= i < j < |cs| ==> cs[i] != cs[j]
  }

  /** `collectors.filter(c => c.event === event)`. */
  function Targets(cs: seq<Collector>, event: string): (r: seq<Collector>)
    ensures forall c <- r :: c in cs && c.event == event
    ensures forall c <- cs :: c.event == event ==> c in r
    ensures Distinct(cs) ==> Distinct(r)
  {
    if cs == [] then []
    else
      var rest := Targets(cs[1..], event);
      assert Distinct(cs) ==> cs[0] !in cs[1..];
      (if cs[0].event == event then [cs[0]] else []) + rest
  }

  /** `filter` keeps list order: the targets of `a + b` are those of `a`, then those of `b`. */
  lemma {:induction false} TargetsAppend(a: seq<Collector>, b: seq<Collector>, event: string)
    ensures Targets(a + b, event) == Targets(a, event) + Targets(b, event)
  {
    if a != [] {
      assert (a + b)[1..] == a[1..] + b;
      TargetsAppend(a[1..], b, event);
    } else {
      assert a + b == b;
    }
  }

  /** One collector is a target exactly when it listens to the event. */
  lemma TargetsSingle(c: Collector, event: string)
    ensures Targets([c], event) == if c.event == event then [c] else []
  {
    assert [c][1..] == [];
  }

  /** `cs.splice(i, 1)`: drops the element at `i`; an index past the end changes nothing. */
  function Splice(cs: seq<Collector>, i: nat): (r: seq<Collector>)
    ensures i < |cs| ==> |r| == |cs| - 1 && r == cs[..i] + cs[i + 1..]
    ensures i >= |cs| ==> r == cs
    ensures forall c <- r :: c in cs
    ensures Distinct(cs) ==> Distinct(r)
    ensures Distinct(cs) && i < |cs| ==> cs[i] !in r
  {
    if i < |cs| then cs[..i] + cs[i + 1..] else cs
  }

  /**
   * The handler loop, from target `i` on: the list being spliced, every
   * collector's state, and the collectors whose promise settled so far (their
   * `.then` callbacks, queued).
   */
  datatype Step = Step(collectors: seq<Collector>, states: map<Collector, CollectorState>, queued: seq<Collector>)

  /** One iteration: validate `target`, queue its `.then` callback if that settled it, splice `i` on true. */
  function Visit(target: Collector, args: seq<Value>, i: nat, st: Step): (r: (Step, Completion<bool>))
    requires target in st.states
    ensures r.0.states.Keys == st.states.Keys
    ensures forall c <- r.0.queued :: c in st.queued || c == target
    ensures forall c <- r.0.collectors :: c in st.collectors
    ensures Distinct(st.collectors) ==> Distinct(r.0.collectors)
    ensures forall c <- st.states :: c != target ==> r.0.states[c] == st.states[c]
  {
    var before := st.states[target];
    var v := ValidateSpec(target.options, before, Process(target, args));
    var queued := if before.settled.None? && v.state.settled.Some? then st.queued + [target] else st.queued;
    var cs := if v.result == Normal(true) then Splice(st.collectors, i) else st.collectors;
    (Step(cs, st.states[target := v.state], queued), v.result)
  }

  /** The handler loop from target `i` on; a `validate` that throws ends it. */
  function LoopFrom(targets: seq<Collector>, args: seq<Value>, i: nat, st: Step): (r: (Step, Completion<()>))
    requires i <= |targets|
    requires forall c <- targets :: c in st.states
    ensures r.0.states.Keys == st.states.Keys
    ensures forall c <- r.0.queued :: c in st.queued || c in targets
    ensures forall c <- r.0.collectors :: c in st.collectors
    ensures Distinct(st.collectors) ==> Distinct(r.0.collectors)
    ensures forall c <- st.states :: c !in targets ==> r.0.states[c] == st.states[c]
    decreases |targets| - i
  {
    if i == |targets| then (st, Normal(()))
    else
      var (next, v) := Visit(targets[i], args, i, st);
      if v.Abrupt? then (next, Abrupt(v.error))
      else LoopFrom(targets, args, i + 1, next)
  }

  /** The queued `.then` callbacks, in order: each splices its registration index. */
  function Drain(cs: seq<Collector>, thenIndex: map<Collector, nat>, queued: seq<Collector>): (r: seq<Collector>)
    requires forall c <- queued :: c in thenIndex
    ensures forall c <- r :: c in cs
    ensures Distinct(cs) ==> Distinct(r)
    decreases |queued|
  {
    if queued == [] then cs else Drain(Splice(cs, thenIndex[queued[0]]), thenIndex, queued[1..])
  }

  /** The manager's list together with the state of every registered collector. */
  datatype World = World(collectors: seq<Collector>, states: map<Collector, CollectorState>)

  predicate WorldOk(w: World, thenIndex: map<Collector, nat>) {
    w.states.Keys == thenIndex.Keys && forall c <- w.collectors :: c in thenIndex
  }

  /** The bot emitting `event` with `args`, followed by the `.then` callbacks it queued. */
  function FireSpec(handlers: set<string>, thenIndex: map<Collector, nat>, w: World, event: string, args: seq<Value>): (r: (World, Completion<()>))
    requires WorldOk(w, thenIndex)
    ensures WorldOk(r.0, thenIndex)
    ensures Distinct(w.collectors) ==> Distinct(r.0.collectors)
    ensures forall c <- w.states :: c !in w.collectors ==> r.0.states[c] == w.states[c]
  {
    if event !in handlers then (w, Normal(()))
    else
      var targets := Targets(w.collectors, event);
      var (st, r) := LoopFrom(targets, args, 0, Step(w.collectors, w.states, []));
      (World(Drain(st.collectors, thenIndex, st.queued), st.states), r)
  }

  lemma FireUnfolds(handlers: set<string>, thenIndex: map<Collector, nat>, w: World, event: string, args: seq<Value>)
    requires WorldOk(w, thenIndex) && event in handlers
    ensures var lr := LoopFrom(Targets(w.collectors, event), args, 0, Step(w.collectors, w.states, []));
      && (forall c <- lr.0.queued :: c in thenIndex)
      && FireSpec(handlers, thenIndex, w, event, args) == (World(Drain(lr.0.collectors, thenIndex, lr.0.queued), lr.0.states), lr.1)
  {
  }

  /** `c`'s timer callback, followed by its `.then` callback if that settled the promise. */
  function TimerSpec(thenIndex: map<Collector, nat>, w: World, c: Collector): (r: World)
    requires WorldOk(w, thenIndex) && c in thenIndex
    ensures WorldOk(r, thenIndex)
    ensures Distinct(w.collectors) ==> Distinct(r.collectors)
  {
    var before := w.states[c];
    var after := TimeoutSpec(c.options, before);
    var cs := if before.settled.None? && after.settled.Some? then Splice(w.collectors, thenIndex[c]) else w.collectors;
    World(cs, w.states[c := after])
  }

  /** What `register` hands back: the collector itself when `event` is set, else the promise. */
  datatype Registered = Emitter(collector: Collector) | Promise(collector: Collector)

  class CollectorManager {
    /** The events a handler exists for (`this.handlers`'s keys). */
    var handlers: set<string>
    /** The `bot.on(event, handler)` calls made, in order. */
    var subscriptions: seq<string>
    var collectors: seq<Collector>
    /** Every registered collector with the `idx` its `.then` callback captured. */
    var thenIndex: map<Collector, nat>

    ghost predicate Valid()
      reads this
    {
      ListOk() && EventsOk()
    }

    /** Every listed collector is registered, and none is listed twice. */
    ghost predicate ListOk()
      reads this`collectors, this`thenIndex
    {
      (forall c <- collectors :: c in thenIndex) && Distinct(collectors)
    }

    /** Every registered collector's event has a handler, subscribed exactly once. */
    ghost predicate EventsOk()
      reads this`thenIndex, this`handlers, this`subscriptions
    {
      && (forall c <- thenIndex :: c.event in handlers)
      && (forall e <- subscriptions :: e in handlers)
      && (forall e <- handlers :: e in subscriptions)
      && (forall i, j :: 0 <= i < j < |subscriptions| ==> subscriptions[i] != subscriptions[j])
    }

    function States(): (m: map<Collector, CollectorState>)
      reads this`thenIndex, thenIndex.Keys
      ensures m.Keys == thenIndex.Keys
    {
      map c | c in thenIndex :: c.State()
    }

    function Current(): World
      reads this, thenIndex.Keys
    {
      World(collectors, States())
    }

    constructor ()
      ensures Valid()
      ensures handlers == {} && subscriptions == [] && collectors == [] && thenIndex == map[]
    {
      handlers := {};
      subscriptions := [];
      collectors := [];
      thenIndex := map[];
    }

    /**
     * `register(collector)`: subscribes a handler for the collector's event the
     * first time that event is seen, appends the collector, runs it and records
     * the index its `.then` callback will splice.
     */
    method Register(c: Collector) returns (r: Registered)
      requires Valid() && c !in thenIndex && c.State() == Unstarted
      modifies this, c
      ensures Valid()
      ensures handlers == old(handlers) + {c.event}
      ensures subscriptions == old(subscriptions) + (if c.event in old(handlers) then [] else [c.event])
      ensures collectors == old(collectors) + [c]
      ensures thenIndex == old(thenIndex)[c := |old(collectors)|]
      ensures c.State() == RunSpec(c.options, Unstarted)
      ensures States() == old(States())[c := RunSpec(c.options, Unstarted)]
      ensures r == if c.options.event then Emitter(c) else Promise(c)
    {
      ghost var before := States();
      Subscribe(c.event);
      assert States() == before;
      Track(c);
      r := if c.options.event then Emitter(c) else Promise(c);
    }

    /** The handler for `event` is created and passed to `bot.on` only if none exists yet. */
    method Subscribe(event: string)
      requires Valid()
      modifies this`handlers, this`subscriptions
      ensures Valid()
      ensures handlers == old(handlers) + {event}
      ensures subscriptions == old(subscriptions) + (if event in old(handlers) then [] else [event])
    {
      if event !in handlers {
        handlers := handlers + {event};
        subscriptions := subscriptions + [event];
      }
    }

    /** `idx = collectors.length; collectors.push(collector); collector.run().then(...)`. */
    method Track(c: Collector)
      requires Valid() && c !in thenIndex && c.event in handlers && c.State() == Unstarted
      modifies this`collectors, this`thenIndex, c
      ensures Valid()
      ensures collectors == old(collectors) + [c]
      ensures thenIndex == old(thenIndex)[c := |old(collectors)|]
      ensures c.State() == RunSpec(c.options, Unstarted)
      ensures States() == old(States())[c := RunSpec(c.options, Unstarted)]
    {
      ghost var before := States();
      var idx := |collectors|;
      collectors := collectors + [c];
      c.Run();
      thenIndex := thenIndex[c := idx];
      ghost var after := before[c := RunSpec(c.options, Unstarted)];
      forall d | d in after
        ensures States()[d] == after[d]
      {
        if d != c {
          assert d in before && d.State() == before[d];
        }
      }
      assert States() == after;
    }

    /** `awaitMessages(options)`. */
    method AwaitMessages(options: CollectorOptions) returns (r: Registered)
      requires Valid()
      modifies this
      ensures Valid() && fresh(r.collector)
      ensures r.collector.kind == MessageKind && r.collector.event == MessageCollectors.EventName
      ensures r.collector.options == Merge(options)
      ensures collectors == old(collectors) + [r.collector]
      ensures thenIndex == old(thenIndex)[r.collector := |old(collectors)|]
      ensures r.collector.State() == RunSpec(Merge(options), Unstarted)
      ensures States() == old(States())[r.collector := RunSpec(Merge(options), Unstarted)]
      ensures handlers == old(handlers) + {MessageCollectors.EventName}
      ensures subscriptions == old(subscriptions) + (if MessageCollectors.EventName in old(handlers) then [] else [MessageCollectors.EventName])
      ensures r == if Merge(options).event then Emitter(r.collector) else Promise(r.collector)
    {
      var c := MessageCollectors.New(options);
      assert States() == old(States());
      r := Register(c);
    }

    /** `awaitReactions(options)`. */
    method AwaitReactions(options: CollectorOptions) returns (r: Registered)
      requires Valid()
      modifies this
      ensures Valid() && fresh(r.collector)
      ensures r.collector.kind == ReactionKind && r.collector.event == ReactionCollectors.EventName
      ensures r.collector.options == Merge(options)
      ensures collectors == old(collectors) + [r.collector]
      ensures thenIndex == old(thenIndex)[r.collector := |old(collectors)|]
      ensures r.collector.State() == RunSpec(Merge(options), Unstarted)
      ensures States() == old(States())[r.collector := RunSpec(Merge(options), Unstarted)]
      ensures handlers == old(handlers) + {ReactionCollectors.EventName}
      ensures subscriptions == old(subscriptions) + (if ReactionCollectors.EventName in old(handlers) then [] else [ReactionCollectors.EventName])
      ensures r == if Merge(options).event then Emitter(r.collector) else Promise(r.collector)
    {
      var c := ReactionCollectors.New(options);
      assert States() == old(States());
      r := Register(c);
    }

    /**
     * The bot emits `event` with `args`: the handler (if one is subscribed) runs,
     * then the `.then` callbacks of the promises it settled. A `validate` that
     * throws ends the handler there.
     */
    method Fire(event: string, args: seq<Value>) returns (r: Completion<()>)
      requires Valid()
      modifies this`collectors, thenIndex.Keys
      ensures Valid()
      ensures (Current(), r) == FireSpec(handlers, thenIndex, old(Current()), event, args)
    {
      if event !in handlers {
        return Normal(());
      }
      var targets := Targets(collectors, event);
      ghost var w := Current();
      var queued;
      r, queued := Handler(targets, args);
      ghost var looped := Step(collectors, States(), queued);
      ThenCallbacks(queued);
      assert States() == looped.states;
      FireUnfolds(handlers, thenIndex, w, event, args);
      assert w == old(Current());
    }

    /** The handler's loop over the snapshot `targets`, splicing index `i` on success. */
    method Handler(targets: seq<Collector>, args: seq<Value>) returns (r: Completion<()>, queued: seq<Collector>)
      requires Valid() && forall c <- targets :: c in thenIndex
      modifies this`collectors, thenIndex.Keys
      ensures Valid() && forall c <- queued :: c in thenIndex
      ensures (Step(collectors, States(), queued), r) == LoopFrom(targets, args, 0, Step(old(collectors), old(States()), []))
    {
      ghost var goal := LoopFrom(targets, args, 0, Step(collectors, States(), []));
      queued := [];
      var i := 0;
      r := Normal(());
      while i < |targets| && r.Normal?
        invariant 0 <= i <= |targets|
        invariant ListOk() && EventsOk()
        invariant forall c <- queued :: c in thenIndex
        invariant forall c <- targets :: c in States()
        invariant r == Normal(()) || r.Abrupt?
        invariant r.Normal? ==> LoopFrom(targets, args, i, Step(collectors, States(), queued)) == goal
        invariant r.Abrupt? ==> (Step(collectors, States(), queued), r) == goal
        decreases |targets| - i, r.Normal?
      {
        ghost var st := Step(collectors, States(), queued);
        LoopUnfolds(targets, args, i, st);
        var ok;
        ok, queued := VisitTarget(targets[i], args, i, queued);
        if ok.Abrupt? {
          r := Abrupt(ok.error);
        } else {
          i := i + 1;
        }
      }
    }

    /** One pass of the handler's loop body. */
    method VisitTarget(target: Collector, args: seq<Value>, i: nat, queued: seq<Collector>) returns (ok: Completion<bool>, queued': seq<Collector>)
      requires Valid() && target in thenIndex && forall c <- queued :: c in thenIndex
      modifies this`collectors, target
      ensures Valid() && forall c <- queued' :: c in thenIndex
      ensures (Step(collectors, States(), queued'), ok) == Visit(target, args, i, Step(old(collectors), old(States()), queued))
    {
      ghost var w := Visit(target, args, i, Step(collectors, States(), queued));
      var result := Process(target, args);
      var pending := target.settled.None?;
      ghost var v := ValidateSpec(target.options, target.State(), result);
      ok := ValidateListed(target, result);
      assert target.State() == v.state && ok == v.result;
      queued' := if pending && target.settled.Some? then queued + [target] else queued;
      if ok == Normal(true) {
        Unlist(i);
      }
      assert collectors == w.0.collectors && queued' == w.0.queued && States() == w.0.states;
    }

    /** `collectors.splice(i, 1)`: the registrations and handlers stay as they are. */
    method Unlist(i: nat)
      requires Valid()
      modifies this`collectors
      ensures Valid() && collectors == Splice(old(collectors), i)
    {
      collectors := Splice(collectors, i);
    }

    /** `target.validate(result)` on a registered collector: only its own entry in `States()` changes. */
    method ValidateListed(target: Collector, payload: Value) returns (ok: Completion<bool>)
      requires target in thenIndex
      modifies target
      ensures Validation(target.State(), ok) == ValidateSpec(target.options, old(target.State()), payload)
      ensures States() == old(States())[target := target.State()]
    {
      ghost var before := States();
      ok := target.Validate(payload);
      ghost var after := before[target := target.State()];
      forall d | d in after
        ensures States()[d] == after[d]
      {
      }
      assert States() == after;
    }

    /** The queued `.then` callbacks, each splicing the index its collector was registered at. */
    method ThenCallbacks(queued: seq<Collector>)
      requires Valid() && forall c <- queued :: c in thenIndex
      modifies this`collectors
      ensures Valid() && collectors == Drain(old(collectors), thenIndex, queued)
    {
      var j := 0;
      while j < |queued|
        invariant 0 <= j <= |queued|
        invariant Valid()
        invariant Drain(collectors, thenIndex, queued[j..]) == Drain(old(collectors), thenIndex, queued)
      {
        assert queued[j..][1..] == queued[j + 1..];
        collectors := Splice(collectors, thenIndex[queued[j]]);
        j := j + 1;
      }
      assert queued[j..] == [];
    }

    /** `c`'s timeout elapses: its timer callback, then its `.then` callback. */
    method TimerFires(c: Collector)
      requires Valid() && c in thenIndex && c.timeout
      modifies this`collectors, c
      ensures Valid()
      ensures Current() == TimerSpec(thenIndex, old(Current()), c)
    {
      ghost var w := TimerSpec(thenIndex, Current(), c);
      ghost var before := States();
      var pending := c.settled.None?;
      c.Timeout();
      ghost var after := before[c := TimeoutSpec(c.options, before[c])];
      forall d | d in after
        ensures States()[d] == after[d]
      {
        if d != c {
          assert d in before && d.State() == before[d];
        }
      }
      assert States() == after;
      if pending && c.settled.Some? {
        collectors := Splice(collectors, thenIndex[c]);
      }
      assert collectors == w.collectors && States() == w.states;
    }
  }

  // ---------------------------------------------------------------------------
  // Properties of a firing

  /** A collector not among the targets still to visit keeps its state. */
  lemma {:induction false} LoopSkipsOthers(targets: seq<Collector>, args: seq<Value>, i: nat, st: Step, c: Collector)
    requires i <= |targets| && (forall d <- targets :: d in st.states) && c in st.states
    requires forall k :: i <= k < |targets| ==> targets[k] != c
    ensures LoopFrom(targets, args, i, st).0.states[c] == st.states[c]
    decreases |targets| - i
  {
    if i < |targets| {
      var next := Visit(targets[i], args, i, st).0;
      if Visit(targets[i], args, i, st).1.Normal? {
        LoopSkipsOthers(targets, args, i + 1, next, c);
      }
    }
  }

  /** One turn of the handler loop: a throwing `validate` ends it, any other result moves on. */
  lemma LoopUnfolds(targets: seq<Collector>, args: seq<Value>, i: nat, st: Step)
    requires i < |targets| && (forall c <- targets :: c in st.states)
    ensures var (next, v) := Visit(targets[i], args, i, st);
      LoopFrom(targets, args, i, st) == if v.Abrupt? then (next, Abrupt(v.error)) else LoopFrom(targets, args, i + 1, next)
  {
  }

  /** One turn of the handler loop on a target that cannot throw. */
  lemma LoopStep(targets: seq<Collector>, args: seq<Value>, i: nat, st: Step)
    requires i < |targets| && (forall c <- targets :: c in st.states)
    requires st.states[targets[i]].resolve
    ensures Visit(targets[i], args, i, st).1.Normal?
    ensures Visit(targets[i], args, i, st).0.states ==
      st.states[targets[i] := ValidateSpec(targets[i].options, st.states[targets[i]], Process(targets[i], args)).state]
    ensures LoopFrom(targets, args, i, st) == LoopFrom(targets, args, i + 1, Visit(targets[i], args, i, st).0)
  {
  }

  /** From target `i` on, each target is validated once, in order, when none of them can throw. */
  lemma {:induction false} LoopValidatesEach(targets: seq<Collector>, args: seq<Value>, i: nat, st: Step)
    requires i <= |targets| && (forall c <- targets :: c in st.states) && Distinct(targets)
    requires forall k :: i <= k < |targets| ==> st.states[targets[k]].resolve
    ensures LoopFrom(targets, args, i, st).1 == Normal(())
    ensures forall k :: i <= k < |targets| ==>
      (LoopFrom(targets, args, i, st).0.states[targets[k]] ==
       ValidateSpec(targets[k].options, st.states[targets[k]], Process(targets[k], args)).state)
    decreases |targets| - i
  {
    if i < |targets| {
      var t := targets[i];
      LoopStep(targets, args, i, st);
      var next := Visit(t, args, i, st).0;
      forall k | i + 1 <= k < |targets|
        ensures next.states[targets[k]] == st.states[targets[k]]
      {
        assert targets[k] != t;
      }
      LoopValidatesEach(targets, args, i + 1, next);
      LoopSkipsOthers(targets, args, i + 1, next, t);
    }
  }

  /**
   * When no same-event collector has lost its `resolve` to a timeout, a firing
   * never stops early: every listed collector for the event is validated once
   * (several may complete on the same payload), and no other collector changes.
   */
  lemma FireValidatesEveryTarget(handlers: set<string>, thenIndex: map<Collector, nat>, w: World, event: string, args: seq<Value>)
    requires WorldOk(w, thenIndex) && Distinct(w.collectors) && event in handlers
    requires forall c <- w.collectors :: c.event == event ==> w.states[c].resolve
    ensures FireSpec(handlers, thenIndex, w, event, args).1 == Normal(())
    ensures forall c <- w.collectors :: c.event == event ==>
      FireSpec(handlers, thenIndex, w, event, args).0.states[c] == ValidateSpec(c.options, w.states[c], Process(c, args)).state
    ensures forall c <- w.states :: c !in w.collectors || c.event != event ==>
      FireSpec(handlers, thenIndex, w, event, args).0.states[c] == w.states[c]
  {
    var targets := Targets(w.collectors, event);
    var st := Step(w.collectors, w.states, []);
    forall k | 0 <= k < |targets|
      ensures w.states[targets[k]].resolve
    {
      assert targets[k] in targets;
    }
    LoopValidatesEach(targets, args, 0, st);
    var after := LoopFrom(targets, args, 0, st).0.states;
    forall c | c in w.collectors && c.event == event
      ensures after[c] == ValidateSpec(c.options, w.states[c], Process(c, args)).state
    {
      var k :| 0 <= k < |targets| && targets[k] == c;
    }
  }

  /**
   * The handler splices by position in its FILTERED snapshot: with a reaction
   * collector `a` registered before a message collector `b`, a message that
   * completes `b` removes `a` from the list; `b`'s own `.then` callback then
   * splices index 1 of a one-element list and removes nothing.
   */
  lemma SnapshotIndexRemovesOther(a: Collector, b: Collector, sa: CollectorState, sb: CollectorState, m: Value)
    requires a.event == ReactionCollectors.EventName && b.event == MessageCollectors.EventName
    requires b.kind == MessageKind && b.options.limit == 1 && b.options.filter(m) && Pending(sb) && sb.collector == []
    ensures var w := World([a, b], map[a := sa, b := sb]);
      var r := FireSpec({a.event, b.event}, map[a := 0, b := 1], w, b.event, [m]);
      && r.1 == Normal(()) && r.0.collectors == [b]
      && r.0.states[b].settled == Some(m) && r.0.states[a] == sa
  {
    assert a != b by {
      assert a.event[8] != b.event[8];
    }
    var thenIndex := map[a := 0, b := 1];
    var states := map[a := sa, b := sb];
    assert Targets([a, b], b.event) == [b] by {
      assert a.event != b.event by {
        assert a.event[8] != b.event[8];
      }
      assert [a, b][1..] == [b] && [b][1..] == [];
      assert Targets([b], b.event) == [b] + Targets([], b.event);
    }
    var (next, v) := Visit(b, [m], 0, Step([a, b], states, []));
    assert Process(b, [m]) == m;
    assert v == Normal(true);
    assert next.collectors == [b] && next.queued == [b];
    assert LoopFrom([b], [m], 0, Step([a, b], states, [])) == (next, Normal(()));
    assert Drain([b], thenIndex, [b]) == [b];
    assert next.states[a] == sa && next.states[b].settled == Some(m);
    assert FireSpec({a.event, b.event}, thenIndex, World([a, b], states), b.event, [m]) == (World([b], next.states), Normal(()));
  }

  /** A payload the filter rejects leaves the loop state as it was. */
  lemma RejectedVisit(t: Collector, args: seq<Value>, i: nat, st: Step)
    requires t in st.states && !t.options.filter(Process(t, args))
    ensures Visit(t, args, i, st) == (st, Normal(false))
  {
    assert st.states[t := st.states[t]] == st.states;
  }

  lemma SameEventTargets(x: Collector, y: Collector, z: Collector)
    requires x.event == y.event == z.event
    ensures Targets([x, y, z], x.event) == [x, y, z]
  {
    assert [x, y, z][1..] == [y, z] && [y, z][1..] == [z] && [z][1..] == [];
    assert Targets([z], x.event) == [z] + Targets([], x.event);
    assert Targets([y, z], x.event) == [y] + Targets([z], x.event);
  }

  lemma SecondSplice(x: Collector, y: Collector, z: Collector, thenIndex: map<Collector, nat>)
    requires x in thenIndex && thenIndex[x] == 0
    ensures Drain([y, z], thenIndex, [x]) == [z]
  {
    assert Splice([y, z], 0) == [z] && [x][1..] == [];
    assert Drain([y, z], thenIndex, [x]) == Drain([z], thenIndex, []);
  }

  /** The handler's loop for the scenario below: only `x` completes, and the loop splices index 0. */
  lemma OnlyFirstCompletes(x: Collector, y: Collector, z: Collector, states: map<Collector, CollectorState>, args: seq<Value>)
    requires x in states && y in states && z in states && x != y && y != z && x != z
    requires Pending(states[x]) && states[x].collector == [] && x.options.limit == 1 && x.options.filter(Process(x, args))
    requires !y.options.filter(Process(y, args)) && !z.options.filter(Process(z, args))
    ensures var sx' := ValidateSpec(x.options, states[x], Process(x, args)).state;
      LoopFrom([x, y, z], args, 0, Step([x, y, z], states, [])) == (Step([y, z], states[x := sx'], [x]), Normal(()))
  {
    var targets := [x, y, z];
    var init := Step(targets, states, []);
    var v := ValidateSpec(x.options, states[x], Process(x, args));
    assert v.result == Normal(true) && v.state.settled.Some?;
    var st1 := Step([y, z], states[x := v.state], [x]);
    assert Visit(x, args, 0, init) == (st1, Normal(true)) by {
      assert Splice(targets, 0) == [y, z];
      assert init.queued + [x] == [x];
    }
    RejectedVisit(z, args, 2, st1);
    assert LoopFrom(targets, args, 2, st1) == (st1, Normal(()));
    RejectedVisit(y, args, 1, st1);
    assert LoopFrom(targets, args, 1, st1) == (st1, Normal(()));
  }

  /**
   * With three collectors on one event, a payload that completes only the first
   * removes it twice: the handler splices index 0, and its `.then` callback
   * splices its registration index 0 again, dropping the second collector,
   * which stays unsettled and is never offered another payload.
   */
  lemma ResolutionRemovesTwice(x: Collector, y: Collector, z: Collector, thenIndex: map<Collector, nat>, states: map<Collector, CollectorState>, args: seq<Value>)
    requires x != y && y != z && x != z
    requires x.event == y.event == z.event
    requires states.Keys == thenIndex.Keys && x in thenIndex && y in thenIndex && z in thenIndex && thenIndex[x] == 0
    requires Pending(states[x]) && states[x].collector == [] && x.options.limit == 1 && x.options.filter(Process(x, args))
    requires !y.options.filter(Process(y, args)) && !z.options.filter(Process(z, args))
    ensures var r := FireSpec({x.event}, thenIndex, World([x, y, z], states), x.event, args);
      && r.1 == Normal(()) && r.0.collectors == [z]
      && r.0.states[x].settled == Some(Process(x, args)) && r.0.states[y] == states[y] && r.0.states[z] == states[z]
  {
    ThreeFiring(x, y, z, thenIndex, states, args);
    SettlesWithPayload(x.options, states[x], Process(x, args));
  }

  lemma ThreeFiring(x: Collector, y: Collector, z: Collector, thenIndex: map<Collector, nat>, states: map<Collector, CollectorState>, args: seq<Value>)
    requires x != y && y != z && x != z
    requires x.event == y.event == z.event
    requires states.Keys == thenIndex.Keys && x in thenIndex && y in thenIndex && z in thenIndex && thenIndex[x] == 0
    requires Pending(states[x]) && states[x].collector == [] && x.options.limit == 1 && x.options.filter(Process(x, args))
    requires !y.options.filter(Process(y, args)) && !z.options.filter(Process(z, args))
    ensures var sx' := ValidateSpec(x.options, states[x], Process(x, args)).state;
      FireSpec({x.event}, thenIndex, World([x, y, z], states), x.event, args)
         == (World([z], states[x := sx']), Normal(()))
  {
    FireUnfolds({x.event}, thenIndex, World([x, y, z], states), x.event, args);
    var sx' := ValidateSpec(x.options, states[x], Process(x, args)).state;
    SameEventTargets(x, y, z);
    var targets := Targets([x, y, z], x.event);
    var lr := LoopFrom(targets, args, 0, Step([x, y, z], states, []));
    assert lr == (Step([y, z], states[x := sx'], [x]), Normal(())) by {
      OnlyFirstCompletes(x, y, z, states, args);
    }
    assert Drain(lr.0.collectors, thenIndex, lr.0.queued) == [z] by {
      SecondSplice(x, y, z, thenIndex);
    }
  }

  /** A pending limit-one collector settles with the first payload its filter accepts. */
  lemma SettlesWithPayload(options: Settings, s: CollectorState, v: Value)
    requires Pending(s) && s.collector == [] && options.limit == 1 && options.filter(v)
    ensures ValidateSpec(options, s, v).state.settled == Some(v)
  {
  }
}
