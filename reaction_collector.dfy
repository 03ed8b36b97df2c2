/**
 * ReactionCollector.ts: a collector of "messageReactionAdd" events whose payload
 * is the record `{msg, emoji, reactor}` built from the event's first three
 * arguments.
 */
module ReactionCollectors {
  import opened Js
  import opened Collectors

  const EventName: string := "messageReactionAdd"

  /** Array destructuring: a missing element is `undefined`. */
  function Arg(args: seq<Value>, i: nat): (v: Value)
    ensures i < |args| ==> v == args[i]
    ensures i >= |args| ==> v == Undefined
  {
    if i < |args| then args[i] else Undefined
  }

  /** `process(...args)`: `const [msg, emoji, reactor] = args; return {msg, emoji, reactor}`. */
  function Process(args: seq<Value>): (v: Value)
    ensures v.Record? && v.fields.Keys == {"msg", "emoji", "reactor"}
    ensures v.fields["msg"] == Arg(args, 0) && v.fields["emoji"] == Arg(args, 1) && v.fields["reactor"] == Arg(args, 2)
  {
    Record(map["msg" := Arg(args, 0), "emoji" := Arg(args, 1), "reactor" := Arg(args, 2)])
  }

  /** `new ReactionCollector(options)`. */
  method New(options: CollectorOptions) returns (c: Collector)
    ensures fresh(c)
    ensures c.kind == ReactionKind && c.event == EventName && c.options == Merge(options)
    ensures c.State() == Unstarted
  {
    c := new Collector(ReactionKind, EventName, options);
  }

  /** Arguments after the third do not reach the payload. */
  lemma ExtraArgumentsIgnored(args: seq<Value>)
    requires |args| >= 3
    ensures Process(args) == Process(args[..3])
  {
  }

  /** A reaction event with fewer than three arguments leaves the missing fields `undefined`. */
  lemma MissingArgumentsUndefined(msg: Value)
    ensures Process([msg]) == Record(map["msg" := msg, "emoji" := Undefined, "reactor" := Undefined])
  {
  }
}
