/**
 * MessageCollector.ts: a collector of "messageCreate" events whose payload is
 * the message itself.
 */
module MessageCollectors {
  import opened Js
  import opened Collectors

  const EventName: string := "messageCreate"

  /** `process(...args)`: the first argument, `undefined` when there is none. */
  function Process(args: seq<Value>): (v: Value)
    ensures |args| > 0 ==> v == args[0]
    ensures |args| == 0 ==> v == Undefined
  {
    if |args| > 0 then args[0] else Undefined
  }

  /** `new MessageCollector(options)`. */
  method New(options: CollectorOptions) returns (c: Collector)
    ensures fresh(c)
    ensures c.kind == MessageKind && c.event == EventName && c.options == Merge(options)
    ensures c.State() == Unstarted
  {
    c := new Collector(MessageKind, EventName, options);
  }

  /**
   * A message collector with the default limit resolves with the first message
   * its filter accepts, whatever else the event carried with it.
   */
  lemma ResolvesWithMessage(options: CollectorOptions, m: Value, extra: seq<Value>)
    requires options.limit.None? && options.filter(m)
    ensures var cfg := Merge(options);
      var r := ValidateSpec(cfg, RunSpec(cfg, Unstarted), Process([m] + extra));
      r.result == Normal(true) && r.state.settled == Some(m)
  {
    var cfg := Merge(options);
    FirstMatchResolves(cfg, [], m, []);
  }
}
