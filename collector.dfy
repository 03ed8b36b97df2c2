/**
 * Collector.ts: a wait for future event payloads. `run` creates the promise and
 * schedules the timeout; `validate` tests one payload against the filter,
 * accumulates it when the limit is above one, and resolves the promise once the
 * limit is reached; the timer callback resolves with what was gathered.
 *
 * The promise and the event emitter the class extends are part of the state:
 * `settled` is the value the promise resolved with (the first `resolve` call
 * wins), and `emitted` lists the "received" and "end" notifications delivered
 * while listeners were attached. The timer is the flag `timeout`: a callback is
 * scheduled and has neither run nor been cleared.
 */
module Collectors {
  import opened Js

  /** Which subclass a collector is: MessageCollector or ReactionCollector. */
  datatype Kind = MessageKind | ReactionKind

  /**
   * The options handed to the constructor (`CollectorOptions`): the filter (the
   * truthiness of what it returns), the `timeout` and `limit` keys (`None` when
   * not supplied) and the `event` flag.
   */
  datatype CollectorOptions = CollectorOptions(filter: Value -> bool, timeout: Option<int>, limit: Option<int>, event: bool)

  /** The options in effect after `Object.assign({timeout: 30000, limit: 1}, options)`. */
  datatype Settings = Settings(filter: Value -> bool, timeout: int, limit: int, event: bool)

  const DefaultTimeout: int := 30000
  const DefaultLimit: int := 1

  /** Supplied keys override the defaults; missing ones take them. */
  function Merge(options: CollectorOptions): (s: Settings)
    ensures s.filter == options.filter && s.event == options.event
    ensures options.timeout.None? ==> s.timeout == DefaultTimeout
    ensures options.timeout.Some? ==> s.timeout == options.timeout.value
    ensures options.limit.None? ==> s.limit == DefaultLimit
    ensures options.limit.Some? ==> s.limit == options.limit.value
  {
    Settings(options.filter, options.timeout.GetOr(DefaultTimeout), options.limit.GetOr(DefaultLimit), options.event)
  }

  /** A notification the collector emits: "received" with a payload, or "end". */
  datatype Emission = Received(payload: Value) | End

  /**
   * The mutable part of a collector: whether `this.resolve` is a function, the
   * `collector` array, whether a timeout is pending, the promise's value once
   * settled, whether listeners are still attached, and the notifications they got.
   */
  datatype CollectorState = CollectorState(
    resolve: bool,
    collector: seq<Value>,
    timeout: bool,
    settled: Option<Value>,
    listening: bool,
    emitted: seq<Emission>)

  /** A collector just constructed: `resolve` is null, nothing gathered, no timer, an unsettled promise. */
  const Unstarted: CollectorState := CollectorState(false, [], false, None, true, [])

  /** Calling the promise's resolve function: only the first call settles it. */
  function Settle(s: CollectorState, v: Value): (r: CollectorState)
    ensures r.settled == if s.settled.None? then Some(v) else s.settled
    ensures r.(settled := s.settled) == s
  {
    if s.settled.None? then s.(settled := Some(v)) else s
  }

  /** `emit(e)`: reaches the listeners only while they are attached. */
  function AfterEmit(s: CollectorState, e: Emission): (r: CollectorState)
    ensures r.emitted == if s.listening then s.emitted + [e] else s.emitted
    ensures r.(emitted := s.emitted) == s
  {
    if s.listening then s.(emitted := s.emitted + [e]) else s
  }

  /** `run()`: stores the resolve function and schedules the timer unless the timeout is 0. */
  function RunSpec(options: Settings, s: CollectorState): (r: CollectorState)
    ensures r.resolve
    ensures r.timeout == (s.timeout || options.timeout != 0)
    ensures r.(resolve := s.resolve, timeout := s.timeout) == s
  {
    s.(resolve := true, timeout := s.timeout || options.timeout != 0)
  }

  /** Calling `this.resolve` after the timeout set it to null. */
  const NullResolve: string := "call of a null resolve"

  datatype Validation = Validation(state: CollectorState, result: Completion<bool>)

  /** `validate(received)`. */
  function ValidateSpec(options: Settings, s: CollectorState, received: Value): (r: Validation)
    ensures !options.filter(received) ==> r == Validation(s, Normal(false))
    ensures s.settled.Some? ==> r.state.settled == s.settled
    ensures r.result == Normal(true) ==> !r.state.timeout && r.state.settled.Some?
    ensures r.result.Abrupt? ==> !s.resolve
    ensures r.state.resolve == s.resolve && r.state.listening == s.listening
  {
    if !options.filter(received) then Validation(s, Normal(false))
    else
      var s1 := if options.event then AfterEmit(s, Received(received)) else s;
      var s2 := if options.limit > 1 then s1.(collector := s1.collector + [received]) else s1;
      if options.limit == 1 || |s2.collector| == options.limit then
        if !s2.resolve then Validation(s2, Abrupt(RuntimeTypeError(NullResolve)))
        else
          var s3 := Settle(s2, if |s2.collector| > 0 then List(s2.collector) else received);
          Validation(AfterEmit(s3, End).(timeout := false), Normal(true))
      else Validation(s2, Normal(false))
  }

  /** The timer callback: null `resolve`, settle with the gathered list (or null), "end", drop the listeners. */
  function TimeoutSpec(options: Settings, s: CollectorState): (r: CollectorState)
    ensures !r.resolve && !r.timeout && !r.listening && r.collector == s.collector
    ensures s.settled.Some? ==> r.settled == s.settled
  {
    var s1 := s.(resolve := false, timeout := false);
    var s2 := Settle(s1, if options.limit > 1 then List(s.collector) else Null);
    AfterEmit(s2, End).(listening := false)
  }

  class Collector {
    const kind: Kind
    const event: string
    const options: Settings
    var resolve: bool
    var collector: seq<Value>
    var timeout: bool
    var settled: Option<Value>
    var listening: bool
    var emitted: seq<Emission>

    function State(): CollectorState
      reads this
    {
      CollectorState(resolve, collector, timeout, settled, listening, emitted)
    }

    /** `super(event, options)` of a subclass of kind `kind`. */
    constructor (kind: Kind, event: string, options: CollectorOptions)
      ensures this.kind == kind && this.event == event && this.options == Merge(options)
      ensures State() == Unstarted
    {
      this.kind := kind;
      this.event := event;
      this.options := Merge(options);
      resolve := false;
      collector := [];
      timeout := false;
      settled := None;
      listening := true;
      emitted := [];
    }

    method Emit(e: Emission)
      modifies this
      ensures State() == AfterEmit(old(State()), e)
    {
      if listening {
        emitted := emitted + [e];
      }
    }

    /** `this.resolve(v)`, with `resolve` known to be a function. */
    method Resolve(v: Value)
      modifies this
      ensures State() == Settle(old(State()), v)
    {
      if settled.None? {
        settled := Some(v);
      }
    }

    method Run()
      modifies this
      ensures State() == RunSpec(options, old(State()))
    {
      resolve := true;
      if options.timeout != 0 {
        timeout := true;
      }
    }

    method Validate(received: Value) returns (r: Completion<bool>)
      modifies this
      ensures Validation(State(), r) == ValidateSpec(options, old(State()), received)
    {
      if options.filter(received) {
        if options.event {
          Emit(Received(received));
        }
        if options.limit > 1 {
          collector := collector + [received];
        }
        if options.limit == 1 || |collector| == options.limit {
          if !resolve {
            return Abrupt(RuntimeTypeError(NullResolve));
          }
          Resolve(if |collector| > 0 then List(collector) else received);
          Emit(End);
          timeout := false;
          return Normal(true);
        }
      }
      return Normal(false);
    }

    /** The callback `setTimeout` runs once the timeout elapses. */
    method Timeout()
      requires timeout
      modifies this
      ensures State() == TimeoutSpec(options, old(State()))
    {
      resolve := false;
      timeout := false;
      Resolve(if options.limit > 1 then List(collector) else Null);
      Emit(End);
      listening := false;
    }
  }

  // ---------------------------------------------------------------------------
  // A run of payloads

  /** `validate` applied to each payload in turn. */
  function Feed(options: Settings, s: CollectorState, ps: seq<Value>): CollectorState
    decreases |ps|
  {
    if ps == [] then s else Feed(options, ValidateSpec(options, s, ps[0]).state, ps[1..])
  }

  /** The payloads the filter accepts, in order. */
  function Matching(f: Value -> bool, ps: seq<Value>): (r: seq<Value>)
    ensures |r| <= |ps|
  {
    if ps == [] then [] else (if f(ps[0]) then [ps[0]] else []) + Matching(f, ps[1..])
  }

  /** The filter keeps exactly the payloads it accepts: every kept one was given and accepted, and every accepted one is kept. */
  lemma {:induction false} MatchingAccepted(f: Value -> bool, ps: seq<Value>)
    ensures forall x <- Matching(f, ps) :: x in ps && f(x)
    ensures forall x <- ps :: f(x) ==> x in Matching(f, ps)
    decreases |ps|
  {
    if ps != [] {
      MatchingAccepted(f, ps[1..]);
      assert forall x <- ps :: x == ps[0] || x in ps[1..];
    }
  }

  function Notices(ps: seq<Value>): (r: seq<Emission>)
    ensures |r| == |ps| && forall i :: 0 <= i < |ps| ==> r[i] == Received(ps[i])
  {
    seq(|ps|, i requires 0 <= i < |ps| => Received(ps[i]))
  }

  /** A collector that has run and not resolved. */
  predicate Pending(s: CollectorState) {
    s.resolve && s.settled.None?
  }

  /** One payload below the limit: appended and announced when it matches, the promise still pending. */
  lemma AccumulatesOne(options: Settings, s: CollectorState, p: Value)
    requires options.limit > 1 && Pending(s)
    requires |s.collector| + (if options.filter(p) then 1 else 0) < options.limit
    ensures var t := ValidateSpec(options, s, p).state;
      var m := if options.filter(p) then [p] else [];
      && Pending(t) && t.timeout == s.timeout && t.listening == s.listening
      && t.collector == s.collector + m
      && t.emitted == s.emitted + (if options.event && s.listening then Notices(m) else [])
  {
  }

  lemma NoticesAppend(a: seq<Value>, b: seq<Value>)
    ensures Notices(a + b) == Notices(a) + Notices(b)
  {
  }

  /**
   * With a limit above one, matching payloads are appended in order and the
   * promise stays unsettled while fewer than `limit` have matched; with the
   * `event` flag each match is announced as "received".
   */
  lemma {:induction false} AccumulatesMatches(options: Settings, s: CollectorState, ps: seq<Value>)
    requires options.limit > 1 && Pending(s)
    requires |s.collector + Matching(options.filter, ps)| < options.limit
    ensures var t := Feed(options, s, ps);
      && Pending(t) && t.timeout == s.timeout && t.listening == s.listening
      && t.collector == s.collector + Matching(options.filter, ps)
      && t.emitted == s.emitted + (if options.event && s.listening then Notices(Matching(options.filter, ps)) else [])
  {
    CollectsMatches(options, s, ps);
    AnnouncesMatches(options, s, ps);
  }

  /** The collecting half of `AccumulatesMatches`: pending, same timer and listeners, matches appended in order. */
  lemma {:induction false} CollectsMatches(options: Settings, s: CollectorState, ps: seq<Value>)
    decreases |ps|
    requires options.limit > 1 && Pending(s)
    requires |s.collector + Matching(options.filter, ps)| < options.limit
    ensures var t := Feed(options, s, ps);
      && Pending(t) && t.timeout == s.timeout && t.listening == s.listening
      && t.collector == s.collector + Matching(options.filter, ps)
  {
    if ps != [] {
      var s1, m, rest := FeedOne(options, s, ps);
      assert s.collector + Matching(options.filter, ps) == s1.collector + rest;
      CollectsMatches(options, s1, ps[1..]);
    } else {
      assert Matching(options.filter, ps) == [];
    }
  }

  /** The announcing half of `AccumulatesMatches`: with `event`, one "received" per match, in order. */
  lemma {:induction false} AnnouncesMatches(options: Settings, s: CollectorState, ps: seq<Value>)
    decreases |ps|
    requires options.limit > 1 && Pending(s)
    requires |s.collector + Matching(options.filter, ps)| < options.limit
    ensures Feed(options, s, ps).emitted == s.emitted + (if options.event && s.listening then Notices(Matching(options.filter, ps)) else [])
  {
    if ps != [] {
      var s1, m, rest := FeedOne(options, s, ps);
      assert s.collector + Matching(options.filter, ps) == s1.collector + rest;
      AnnouncesMatches(options, s1, ps[1..]);
      if options.event && s.listening {
        NoticesAppend(m, rest);
        assert s.emitted + Notices(m) + Notices(rest) == s.emitted + Notices(m + rest);
      }
    } else {
      assert Matching(options.filter, ps) == [];
    }
  }

  /** The first payload of a feed below the limit: the state it leaves, and the split of the matches it starts. */
  lemma FeedOne(options: Settings, s: CollectorState, ps: seq<Value>) returns (s1: CollectorState, m: seq<Value>, rest: seq<Value>)
    requires ps != [] && options.limit > 1 && Pending(s)
    requires |s.collector + Matching(options.filter, ps)| < options.limit
    ensures Matching(options.filter, ps) == m + rest && rest == Matching(options.filter, ps[1..])
    ensures m == if options.filter(ps[0]) then [ps[0]] else []
    ensures Feed(options, s, ps) == Feed(options, s1, ps[1..])
    ensures Pending(s1) && s1.timeout == s.timeout && s1.listening == s.listening
    ensures s1.collector == s.collector + m
    ensures s1.emitted == s.emitted + (if options.event && s.listening then Notices(m) else [])
  {
    m := if options.filter(ps[0]) then [ps[0]] else [];
    rest := Matching(options.filter, ps[1..]);
    AccumulatesOne(options, s, ps[0]);
    s1 := ValidateSpec(options, s, ps[0]).state;
  }

  /**
   * With a limit above one, the match that brings the list to exactly `limit`
   * entries resolves the promise with the whole list, clears the timer and
   * emits "end" after its "received".
   */
  lemma ResolvesAtLimit(options: Settings, ps: seq<Value>, v: Value)
    requires options.limit > 1 && options.filter(v)
    requires |Matching(options.filter, ps)| == options.limit - 1
    ensures var s := RunSpec(options, Unstarted);
      var r := ValidateSpec(options, Feed(options, s, ps), v);
      var all := Matching(options.filter, ps) + [v];
      && r.result == Normal(true)
      && r.state.settled == Some(List(all))
      && r.state.collector == all
      && !r.state.timeout
      && r.state.emitted == (if options.event then Notices(all) else []) + [End]
  {
    var s := RunSpec(options, Unstarted);
    AccumulatesMatches(options, s, ps);
    var t := Feed(options, s, ps);
    var all := Matching(options.filter, ps) + [v];
    assert [] + Matching(options.filter, ps) == Matching(options.filter, ps);
    assert t.collector + [v] == all;
    assert |all| == options.limit;
    assert Notices(all) == Notices(Matching(options.filter, ps)) + [Received(v)];
  }

  /** Payloads the filter rejects change nothing. */
  lemma {:induction false} RejectedLeaveState(options: Settings, s: CollectorState, ps: seq<Value>)
    requires forall p <- ps :: !options.filter(p)
    ensures Feed(options, s, ps) == s
  {
    if ps != [] {
      RejectedLeaveState(options, s, ps[1..]);
    }
  }

  /** Once settled, the promise keeps its value whatever payloads follow. */
  lemma {:induction false} SettledStays(options: Settings, s: CollectorState, ps: seq<Value>)
    decreases |ps|
    requires s.settled.Some?
    ensures Feed(options, s, ps).settled == s.settled
  {
    if ps != [] {
      SettledStays(options, ValidateSpec(options, s, ps[0]).state, ps[1..]);
    }
  }

  /**
   * With the default limit of one, the first payload the filter accepts
   * resolves the promise with that payload, stores nothing, and payloads after
   * it do not change the outcome.
   */
  lemma FirstMatchResolves(options: Settings, before: seq<Value>, v: Value, after: seq<Value>)
    requires options.limit == 1 && options.filter(v)
    requires forall p <- before :: !options.filter(p)
    ensures var s := RunSpec(options, Unstarted);
      var r := ValidateSpec(options, Feed(options, s, before), v);
      && r.result == Normal(true) && r.state.settled == Some(v) && r.state.collector == [] && !r.state.timeout
      && Feed(options, r.state, after).settled == Some(v)
  {
    var s := RunSpec(options, Unstarted);
    RejectedLeaveState(options, s, before);
    SettledStays(options, ValidateSpec(options, s, v).state, after);
  }

  /**
   * A timeout before the limit is reached resolves with the partial list when
   * the limit is above one, and with null when it is one and nothing matched;
   * `resolve` is null afterwards and the listeners are gone.
   */
  lemma TimeoutResolvesPartial(options: Settings, ps: seq<Value>)
    requires options.timeout != 0
    requires options.limit > 1 ==> |Matching(options.filter, ps)| < options.limit
    requires options.limit == 1 ==> forall p <- ps :: !options.filter(p)
    requires options.limit >= 1
    ensures var s := Feed(options, RunSpec(options, Unstarted), ps);
      && s.timeout
      && var t := TimeoutSpec(options, s);
      && t.settled == Some(if options.limit > 1 then List(Matching(options.filter, ps)) else Null)
      && !t.resolve && !t.listening
  {
    var s := RunSpec(options, Unstarted);
    if options.limit > 1 {
      AccumulatesMatches(options, s, ps);
      assert [] + Matching(options.filter, ps) == Matching(options.filter, ps);
    } else {
      RejectedLeaveState(options, s, ps);
    }
  }

  /** After the timeout, a payload that would complete the collector makes `validate` throw. */
  lemma MatchAfterTimeoutThrows(options: Settings, s: CollectorState, v: Value)
    requires options.limit == 1 && options.filter(v)
    ensures var r := ValidateSpec(options, TimeoutSpec(options, s), v);
      r.result.Abrupt? && r.state.settled == TimeoutSpec(options, s).settled
  {
  }
}
