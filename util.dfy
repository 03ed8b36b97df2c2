/**
 * util.ts: case-insensitive comparison and the argument resolution engine
 * `parseArgs`, which walks the declared argument specs in order, shifts the
 * tokens it consumes off the caller's array, and either returns the parsed values
 * with that same array, or sends one message to the channel and gives up, or
 * throws when an argument names a type that has no parser.
 */
module Util {
  import opened Js
  import opened JsStrings
  import opened Chat

  /** `equalsCaseInsensitive(a, b)`: the upper-cased strings are equal. */
  function EqualsCaseInsensitive(a: string, b: string): (r: bool)
    ensures a == b ==> r
    ensures r ==> |a| == |b|
  {
    ToUpperCase(a) == ToUpperCase(b)
  }

  /** Character by character: the same length and the same upper-cased characters. */
  lemma EqualsCaseInsensitivePointwise(a: string, b: string)
    ensures EqualsCaseInsensitive(a, b) <==>
      |a| == |b| && forall i :: 0 <= i < |a| ==> UpperChar(a[i]) == UpperChar(b[i])
  {
    if |a| == |b| && forall i :: 0 <= i < |a| ==> UpperChar(a[i]) == UpperChar(b[i]) {
      assert ToUpperCase(a) == ToUpperCase(b);
    }
  }

  lemma EqualsCaseInsensitiveIsEquivalence(a: string, b: string, c: string)
    ensures EqualsCaseInsensitive(a, a)
    ensures EqualsCaseInsensitive(a, b) <==> EqualsCaseInsensitive(b, a)
    ensures EqualsCaseInsensitive(a, b) && EqualsCaseInsensitive(b, c) ==> EqualsCaseInsensitive(a, c)
  {
  }

  /**
   * A declared argument (`Argument` in Command.ts, with the fields parseArgs reads):
   * the parser's type tag, the key it is stored under, and the optional,
   * acceptMultiple, delimiter and limit settings, absent ones as `None`.
   */
  datatype Argument = Argument(
    typeTag: string,
    name: Option<string>,
    optional: bool,
    acceptMultiple: bool,
    delimiter: Option<string>,
    limit: Option<int>)

  /**
   * An entry of the parser registry: a bare function, or an object with `parse`
   * and possibly `getName`. Parsing is abstract: a message, a token and the
   * argument give a value whose falsiness means "did not parse".
   */
  datatype Parser =
    | BareParser(parse: (Message, string, Argument) -> Value)
    | DescriptorParser(parse: (Message, string, Argument) -> Value, getName: Option<Argument -> string>)

  /** The property key `parsedArgs[arg.name]` writes: an absent name becomes "undefined". */
  function Key(arg: Argument): string {
    if arg.name.Some? then arg.name.value else "undefined"
  }

  /** `arg.delimiter || ";"`. */
  function Delimiter(arg: Argument): (d: string)
    ensures |d| > 0
  {
    if arg.delimiter.Some? && arg.delimiter.value != "" then arg.delimiter.value else ";"
  }

  /** `arg.limit || 5`. */
  function Limit(arg: Argument): int {
    if arg.limit.Some? && arg.limit.value != 0 then arg.limit.value else 5
  }

  /** How many iterations `for (i = 0; i < Math.min(pieces, limit); i++)` makes. */
  function PieceCount(arg: Argument, pieces: nat): (n: nat)
    ensures n <= pieces
    ensures Limit(arg) >= 0 ==> n == if pieces <= Limit(arg) then pieces else Limit(arg)
    ensures Limit(arg) < 0 ==> n == 0
  {
    var l := Limit(arg);
    if pieces <= l then pieces else if l < 0 then 0 else l
  }

  /** `parserObj.getName ? parserObj.getName(arg) : arg.type`. */
  function DisplayName(p: Parser, arg: Argument): string {
    if p.DescriptorParser? && p.getName.Some? then p.getName.value(arg) else arg.typeTag
  }

  /** `declared.filter(a => !a.optional).length`. */
  function RequiredCount(declared: seq<Argument>): nat {
    if declared == [] then 0
    else (if declared[0].optional then 0 else 1) + RequiredCount(declared[1..])
  }

  function NotEnoughText(required: nat): string {
    "Not enough arguments, " + NatToString(required) + " required"
  }

  function InvalidPieceText(idx: nat, piece: string): string {
    "Argument " + NatToString(idx) + ": Provided value " + piece + " is invalid"
  }

  function RequiredTypeText(idx: nat, typeName: string): string {
    "Argument " + NatToString(idx) + ": Required type " + typeName
  }

  function MissingParserText(typeTag: string): string {
    "Parser for argument type " + typeTag + " does not exist."
  }

  /** How a call of parseArgs ends. */
  datatype ArgsOutcome =
    | ArgsParsed(parsed: map<string, Value>)
    | ArgsRejected(message: string)
    | ArgsThrew(error: JsError)

  /** The state parseArgs leaves: the caller's token array and the outcome. */
  datatype ParseState = ParseState(tokens: seq<string>, outcome: ArgsOutcome)

  /** What parseArgs sends to the channel for an outcome: one message exactly when it rejects. */
  function Sends(o: ArgsOutcome): (r: seq<Outgoing>)
    ensures |r| == if o.ArgsRejected? then 1 else 0
  {
    if o.ArgsRejected? then [Text(o.message)] else []
  }

  predicate IsSuffix(t: seq<string>, s: seq<string>) {
    |t| <= |s| && t == s[|s| - |t|..]
  }

  /** A suffix of the tokens after the first is a suffix of them all. */
  lemma SuffixOfTail(t: seq<string>, s: seq<string>)
    requires s != [] && IsSuffix(t, s[1..])
    ensures IsSuffix(t, s)
  {
    assert s[1..][|s| - 1 - |t|..] == s[|s| - |t|..];
  }

  /** How the pieces of an acceptMultiple token parse: all values, or the first piece that did not. */
  datatype PiecesOutcome = AllParsed(values: seq<Value>) | BadPiece(piece: string)

  /** The inner loop of parseArgs from piece `i` on, `acc` holding the values pushed so far. */
  function ParsePiecesFrom(p: Parser, msg: Message, arg: Argument, pieces: seq<string>, i: nat, acc: seq<Value>): (r: PiecesOutcome)
    requires i <= |pieces|
    ensures r.AllParsed? ==> |r.values| == |acc| + |pieces| - i
    ensures r.BadPiece? ==> r.piece in pieces[i..]
    decreases |pieces| - i
  {
    if i == |pieces| then AllParsed(acc)
    else
      var v := p.parse(msg, pieces[i], arg);
      if Falsy(v) then BadPiece(pieces[i]) else ParsePiecesFrom(p, msg, arg, pieces, i + 1, acc + [v])
  }

  /**
   * The outer loop of parseArgs from spec `idx` on, over the current tokens, with
   * `acc` the keys stored so far. The tokens left are always a suffix of the
   * tokens given: they are only ever shifted off the front.
   */
  function ParseFrom(parsers: map<string, Parser>, msg: Message, declared: seq<Argument>, idx: nat,
                     tokens: seq<string>, acc: map<string, Value>): (r: ParseState)
    requires idx <= |declared|
    ensures IsSuffix(r.tokens, tokens)
    decreases |declared| - idx
  {
    if idx == |declared| then ParseState(tokens, ArgsParsed(acc))
    else
      var arg := declared[idx];
      if tokens == [] || tokens[0] == "" then
        if arg.optional then ParseFrom(parsers, msg, declared, idx + 1, tokens, acc)
        else ParseState(tokens, ArgsRejected(NotEnoughText(RequiredCount(declared))))
      else if arg.typeTag !in parsers then
        ParseState(tokens, ArgsThrew(ReferenceError(MissingParserText(arg.typeTag))))
      else
        var p := parsers[arg.typeTag];
        if arg.acceptMultiple then
          var pieces := Split(tokens[0], Delimiter(arg));
          var n := PieceCount(arg, |pieces|);
          match ParsePiecesFrom(p, msg, arg, pieces[..n], 0, [])
          case BadPiece(x) => ParseState(tokens[1..], ArgsRejected(InvalidPieceText(idx, x)))
          case AllParsed(vs) =>
            var r := ParseFrom(parsers, msg, declared, idx + 1, tokens[1..], acc[Key(arg) := List(vs)]);
            SuffixOfTail(r.tokens, tokens);
            r
        else
          var v := p.parse(msg, tokens[0], arg);
          if Falsy(v) then
            if !arg.optional then ParseState(tokens, ArgsRejected(RequiredTypeText(idx, DisplayName(p, arg))))
            else ParseFrom(parsers, msg, declared, idx + 1, tokens, acc)
          else
            var r := ParseFrom(parsers, msg, declared, idx + 1, tokens[1..], acc[Key(arg) := v]);
            SuffixOfTail(r.tokens, tokens);
            r
  }

  /** `parseArgs(client, msg, declared, given)` as a function of the tokens given. */
  function ParseArgsSpec(parsers: map<string, Parser>, msg: Message, declared: seq<Argument>, given: seq<string>): (r: ParseState)
    ensures IsSuffix(r.tokens, given)
    ensures |given| - |r.tokens| <= |declared|
  {
    ConsumesAtMostOnePerSpec(parsers, msg, declared, 0, given, map[]);
    ParseFrom(parsers, msg, declared, 0, given, map[])
  }

  /** The value parseArgs returns (or throws); `Parsed` carries the caller's own array. */
  datatype ParseResult =
    | Parsed(given: StringArray, parsed: map<string, Value>)
    | Unparsed
    | Raised(error: JsError)

  /** The inner loop of `parseArgs`: parses the pieces in order and stops at the first falsy one. */
  method ParsePieces(parserObj: Parser, msg: Message, arg: Argument, toParse: seq<string>) returns (o: PiecesOutcome)
    ensures o == ParsePiecesFrom(parserObj, msg, arg, toParse, 0, [])
  {
    var allParsed: seq<Value> := [];
    var i := 0;
    while i < |toParse|
      invariant 0 <= i <= |toParse|
      invariant ParsePiecesFrom(parserObj, msg, arg, toParse, 0, [])
             == ParsePiecesFrom(parserObj, msg, arg, toParse, i, allParsed)
    {
      var parsed := parserObj.parse(msg, toParse[i], arg);
      if Falsy(parsed) {
        return BadPiece(toParse[i]);
      }
      allParsed := allParsed + [parsed];
      i := i + 1;
    }
    return AllParsed(allParsed);
  }

  /**
   * `parseArgs`: shifts the consumed tokens off `given` itself, sends at most one
   * message, and returns `{given, parsed}` with the very array it was handed.
   */
  method ParseArgs(parsers: map<string, Parser>, msg: Message, declared: seq<Argument>, given: StringArray, channel: Channel)
    returns (r: ParseResult)
    modifies given, channel
    ensures var s := ParseArgsSpec(parsers, msg, declared, old(given.items));
      && given.items == s.tokens
      && channel.log == old(channel.log) + Sends(s.outcome)
      && (s.outcome.ArgsParsed? ==> r == Parsed(given, s.outcome.parsed))
      && (s.outcome.ArgsRejected? ==> r == Unparsed)
      && (s.outcome.ArgsThrew? ==> r == Raised(s.outcome.error))
  {
    ghost var spec := ParseArgsSpec(parsers, msg, declared, given.items);
    var parsedArgs: map<string, Value> := map[];
    var idx := 0;
    while idx < |declared|
      invariant 0 <= idx <= |declared|
      invariant spec == ParseFrom(parsers, msg, declared, idx, given.items, parsedArgs)
      invariant channel.log == old(channel.log)
    {
      var stop;
      stop, parsedArgs := ParseOne(parsers, msg, declared, idx, given, channel, parsedArgs);
      if stop.Some? {
        return stop.value;
      }
      idx := idx + 1;
    }
    return Parsed(given, parsedArgs);
  }

  /**
   * One iteration of `parseArgs`'s loop, for the spec at `idx`: either the call
   * ends here (a message sent and `undefined`, or a throw) or the loop goes on
   * with the next spec, the tokens shifted and the values stored so far.
   */
  method ParseOne(parsers: map<string, Parser>, msg: Message, declared: seq<Argument>, idx: nat, given: StringArray,
                  channel: Channel, acc: map<string, Value>)
    returns (stop: Option<ParseResult>, next: map<string, Value>)
    requires idx < |declared|
    modifies given, channel
    ensures var s := ParseFrom(parsers, msg, declared, idx, old(given.items), acc);
      && (stop.None? ==> channel.log == old(channel.log) && s == ParseFrom(parsers, msg, declared, idx + 1, given.items, next))
      && (stop.Some? ==>
            && given.items == s.tokens && channel.log == old(channel.log) + Sends(s.outcome)
            && ((s.outcome.ArgsRejected? && stop.value == Unparsed) || (s.outcome.ArgsThrew? && stop.value == Raised(s.outcome.error))))
  {
    var arg := declared[idx];
    ghost var tokens := given.items;
    next := acc;

    if given.items == [] || given.items[0] == "" {
      if arg.optional {
        assert ParseFrom(parsers, msg, declared, idx, tokens, acc) == ParseFrom(parsers, msg, declared, idx + 1, tokens, acc);
        return None, next;
      } else {
        assert ParseFrom(parsers, msg, declared, idx, tokens, acc) == ParseState(tokens, ArgsRejected(NotEnoughText(RequiredCount(declared))));
        channel.CreateMessage(Text(NotEnoughText(RequiredCount(declared))));
        return Some(Unparsed), next;
      }
    }

    if arg.typeTag !in parsers {
      assert ParseFrom(parsers, msg, declared, idx, tokens, acc) == ParseState(tokens, ArgsThrew(ReferenceError(MissingParserText(arg.typeTag))));
      return Some(Raised(ReferenceError(MissingParserText(arg.typeTag)))), next;
    }

    var parserObj := parsers[arg.typeTag];
    ghost var rest := tokens[1..];
    assert tokens == [tokens[0]] + rest;

    if arg.acceptMultiple {
      var token := given.Shift();
      var toParse := Split(token.value, Delimiter(arg));
      var n := PieceCount(arg, |toParse|);
      var pieces := ParsePieces(parserObj, msg, arg, toParse[..n]);
      if pieces.BadPiece? {
        assert ParseFrom(parsers, msg, declared, idx, tokens, acc) == ParseState(rest, ArgsRejected(InvalidPieceText(idx, pieces.piece))) by {
          MultipleStep(parsers, msg, declared, idx, tokens[0], rest, acc);
        }
        channel.CreateMessage(Text(InvalidPieceText(idx, pieces.piece)));
        return Some(Unparsed), next;
      }
      assert ParseFrom(parsers, msg, declared, idx, tokens, acc)
          == ParseFrom(parsers, msg, declared, idx + 1, rest, acc[Key(arg) := List(pieces.values)]) by {
        MultipleStep(parsers, msg, declared, idx, tokens[0], rest, acc);
      }
      next := acc[Key(arg) := List(pieces.values)];
      return None, next;
    }

    var parsed := parserObj.parse(msg, given.items[0], arg);
    if Falsy(parsed) {
      if !arg.optional {
        assert ParseFrom(parsers, msg, declared, idx, tokens, acc) == ParseState(tokens, ArgsRejected(RequiredTypeText(idx, DisplayName(parserObj, arg)))) by {
          SingleTokenSpec(parsers, msg, declared, idx, tokens[0], rest, acc);
        }
        channel.CreateMessage(Text(RequiredTypeText(idx, DisplayName(parserObj, arg))));
        return Some(Unparsed), next;
      }
      assert ParseFrom(parsers, msg, declared, idx, tokens, acc) == ParseFrom(parsers, msg, declared, idx + 1, tokens, acc) by {
        SingleTokenSpec(parsers, msg, declared, idx, tokens[0], rest, acc);
      }
    } else {
      assert ParseFrom(parsers, msg, declared, idx, tokens, acc) == ParseFrom(parsers, msg, declared, idx + 1, rest, acc[Key(arg) := parsed]) by {
        SingleTokenSpec(parsers, msg, declared, idx, tokens[0], rest, acc);
      }
      next := acc[Key(arg) := parsed];
      var _ := given.Shift();
    }
    return None, next;
  }

  // ---------------------------------------------------------------------------
  // Properties of the argument resolution engine

  /**
   * With no tokens, or an empty first token (`!given[0]`), every optional spec is
   * skipped without a key, the first required one rejects with the count of ALL
   * required specs, no token is consumed, and no parser is ever looked up, so a
   * missing parser cannot throw.
   */
  lemma {:induction false} NoTokens(parsers: map<string, Parser>, msg: Message, declared: seq<Argument>, idx: nat,
                                    tokens: seq<string>, acc: map<string, Value>)
    requires idx <= |declared| && (tokens == [] || tokens[0] == "")
    ensures var r := ParseFrom(parsers, msg, declared, idx, tokens, acc);
      && r.tokens == tokens
      && r.outcome == if RequiredCount(declared[idx..]) == 0 then ArgsParsed(acc)
                      else ArgsRejected(NotEnoughText(RequiredCount(declared)))
    decreases |declared| - idx
  {
    if idx < |declared| {
      assert declared[idx..][1..] == declared[idx + 1..];
      NoTokens(parsers, msg, declared, idx + 1, tokens, acc);
    }
  }

  /** With no tokens, parseArgs succeeds with no keys exactly when every spec is optional. */
  lemma NoTokensParse(parsers: map<string, Parser>, msg: Message, declared: seq<Argument>)
    ensures var r := ParseArgsSpec(parsers, msg, declared, []);
      && r.tokens == []
      && (RequiredCount(declared) == 0 ==> r.outcome == ArgsParsed(map[]))
      && (RequiredCount(declared) > 0 ==> r.outcome == ArgsRejected(NotEnoughText(RequiredCount(declared))))
  {
    NoTokens(parsers, msg, declared, 0, [], map[]);
    assert declared[0..] == declared;
  }

  /**
   * The pieces of an acceptMultiple token when every piece parses: the values
   * are the parses, in order, after the ones already pushed.
   */
  lemma {:induction false} PiecesAllParsed(p: Parser, msg: Message, arg: Argument, pieces: seq<string>, i: nat, acc: seq<Value>)
    requires i <= |pieces| && ParsePiecesFrom(p, msg, arg, pieces, i, acc).AllParsed?
    ensures var vs := ParsePiecesFrom(p, msg, arg, pieces, i, acc).values;
      && |vs| == |acc| + |pieces| - i
      && vs[..|acc|] == acc
      && forall j :: i <= j < |pieces| ==> vs[|acc| + j - i] == p.parse(msg, pieces[j], arg) && Truthy(vs[|acc| + j - i])
    decreases |pieces| - i
  {
    if i < |pieces| {
      var v := p.parse(msg, pieces[i], arg);
      assert Truthy(v);
      var acc' := acc + [v];
      assert ParsePiecesFrom(p, msg, arg, pieces, i, acc) == ParsePiecesFrom(p, msg, arg, pieces, i + 1, acc');
      PiecesAllParsed(p, msg, arg, pieces, i + 1, acc');
      var vs := ParsePiecesFrom(p, msg, arg, pieces, i + 1, acc').values;
      assert vs[..|acc|] == vs[..|acc'|][..|acc|];
      assert vs[|acc| + i - i] == acc'[|acc|] == v;
      forall j | i < j < |pieces|
        ensures vs[|acc| + j - i] == p.parse(msg, pieces[j], arg) && Truthy(vs[|acc| + j - i])
      {
        assert |acc'| + j - (i + 1) == |acc| + j - i;
      }
    }
  }

  /** When some piece parses falsy, the one reported is the first such. */
  lemma {:induction false} PiecesFirstBad(p: Parser, msg: Message, arg: Argument, pieces: seq<string>, i: nat, acc: seq<Value>)
    requires i <= |pieces| && ParsePiecesFrom(p, msg, arg, pieces, i, acc).BadPiece?
    ensures var o := ParsePiecesFrom(p, msg, arg, pieces, i, acc);
      exists j :: i <= j < |pieces| && o.piece == pieces[j] && Falsy(p.parse(msg, pieces[j], arg))
                  && forall k :: i <= k < j ==> Truthy(p.parse(msg, pieces[k], arg))
    decreases |pieces| - i
  {
    var o := ParsePiecesFrom(p, msg, arg, pieces, i, acc);
    var v := p.parse(msg, pieces[i], arg);
    if Falsy(v) {
      assert o.piece == pieces[i];
    } else {
      PiecesFirstBad(p, msg, arg, pieces, i + 1, acc + [v]);
      var j :| i + 1 <= j < |pieces| && o.piece == pieces[j] && Falsy(p.parse(msg, pieces[j], arg))
               && forall k :: i + 1 <= k < j ==> Truthy(p.parse(msg, pieces[k], arg));
      assert forall k :: i <= k < j ==> Truthy(p.parse(msg, pieces[k], arg));
    }
  }

  /**
   * An acceptMultiple spec at any position, reached with a token, consumes
   * exactly that token: its pieces (split on the delimiter) are parsed up to the
   * limit, and either the list of their values is stored under the spec's key and
   * the next spec continues on the remaining tokens, or the first falsy piece is
   * reported with the spec's index, the token already gone. It never throws.
   */
  lemma MultipleConsumesOneToken(parsers: map<string, Parser>, msg: Message, declared: seq<Argument>, idx: nat,
                                 token: string, rest: seq<string>, acc: map<string, Value>)
    requires idx < |declared| && declared[idx].acceptMultiple && declared[idx].typeTag in parsers && token != ""
    ensures var arg := declared[idx];
      var r := ParseFrom(parsers, msg, declared, idx, [token] + rest, acc);
      var p := parsers[arg.typeTag];
      var pieces := Split(token, Delimiter(arg));
      var n := PieceCount(arg, |pieces|);
      var o := ParsePiecesFrom(p, msg, arg, pieces[..n], 0, []);
      && (o.AllParsed? ==>
            && |o.values| == n
            && (forall j :: 0 <= j < n ==> o.values[j] == p.parse(msg, pieces[j], arg))
            && r == ParseFrom(parsers, msg, declared, idx + 1, rest, acc[Key(arg) := List(o.values)]))
      && (o.BadPiece? ==>
            && r == ParseState(rest, ArgsRejected(InvalidPieceText(idx, o.piece)))
            && exists j :: 0 <= j < n && o.piece == pieces[j] && Falsy(p.parse(msg, pieces[j], arg))
                           && forall k :: 0 <= k < j ==> Truthy(p.parse(msg, pieces[k], arg)))
  {
    var arg := declared[idx];
    var pieces := Split(token, Delimiter(arg));
    MultipleStep(parsers, msg, declared, idx, token, rest, acc);
    PiecesOfPrefix(parsers[arg.typeTag], msg, arg, pieces, PieceCount(arg, |pieces|));
  }

  /** The pieces outcome on the first n pieces, stated over the unsliced pieces. */
  lemma PiecesOfPrefix(p: Parser, msg: Message, arg: Argument, pieces: seq<string>, n: nat)
    requires n <= |pieces|
    ensures var o := ParsePiecesFrom(p, msg, arg, pieces[..n], 0, []);
      && (o.AllParsed? ==>
            && |o.values| == n
            && forall j :: 0 <= j < n ==> o.values[j] == p.parse(msg, pieces[j], arg))
      && (o.BadPiece? ==>
            exists j :: 0 <= j < n && o.piece == pieces[j] && Falsy(p.parse(msg, pieces[j], arg))
                        && forall k :: 0 <= k < j ==> Truthy(p.parse(msg, pieces[k], arg)))
  {
    var o := ParsePiecesFrom(p, msg, arg, pieces[..n], 0, []);
    if o.AllParsed? {
      PiecesAllParsed(p, msg, arg, pieces[..n], 0, []);
      forall j | 0 <= j < n
        ensures o.values[j] == p.parse(msg, pieces[j], arg)
      {
        assert pieces[..n][j] == pieces[j];
      }
    } else {
      PiecesFirstBad(p, msg, arg, pieces[..n], 0, []);
      var j :| 0 <= j < n && o.piece == pieces[..n][j] && Falsy(p.parse(msg, pieces[..n][j], arg))
               && forall k :: 0 <= k < j ==> Truthy(p.parse(msg, pieces[..n][k], arg));
      assert pieces[..n][j] == pieces[j];
      assert forall k :: 0 <= k < j ==> pieces[..n][k] == pieces[k];
    }
  }

  /** One step of the outer loop on an acceptMultiple spec reached with a token. */
  lemma MultipleStep(parsers: map<string, Parser>, msg: Message, declared: seq<Argument>, idx: nat,
                     token: string, rest: seq<string>, acc: map<string, Value>)
    requires idx < |declared| && declared[idx].acceptMultiple && declared[idx].typeTag in parsers && token != ""
    ensures var arg := declared[idx];
      var pieces := Split(token, Delimiter(arg));
      ParseFrom(parsers, msg, declared, idx, [token] + rest, acc) ==
        match ParsePiecesFrom(parsers[arg.typeTag], msg, arg, pieces[..PieceCount(arg, |pieces|)], 0, [])
        case BadPiece(x) => ParseState(rest, ArgsRejected(InvalidPieceText(idx, x)))
        case AllParsed(vs) => ParseFrom(parsers, msg, declared, idx + 1, rest, acc[Key(arg) := List(vs)])
  {
    assert ([token] + rest)[1..] == rest;
  }

  /**
   * A single-token spec at any position, reached with a token: a truthy parse
   * stores the value under the spec's key and shifts exactly that token; a falsy
   * one rejects a required spec, naming the spec's index and the parser's display
   * name, and skips an optional one, the token staying for the next spec.
   */
  lemma SingleTokenSpec(parsers: map<string, Parser>, msg: Message, declared: seq<Argument>, idx: nat,
                        token: string, rest: seq<string>, acc: map<string, Value>)
    requires idx < |declared| && !declared[idx].acceptMultiple && declared[idx].typeTag in parsers && token != ""
    ensures var arg := declared[idx];
      var r := ParseFrom(parsers, msg, declared, idx, [token] + rest, acc);
      var p := parsers[arg.typeTag];
      var v := p.parse(msg, token, arg);
      && (Truthy(v) ==> r == ParseFrom(parsers, msg, declared, idx + 1, rest, acc[Key(arg) := v]))
      && (Falsy(v) && !arg.optional ==> r == ParseState([token] + rest, ArgsRejected(RequiredTypeText(idx, DisplayName(p, arg)))))
      && (Falsy(v) && arg.optional ==> r == ParseFrom(parsers, msg, declared, idx + 1, [token] + rest, acc))
  {
    assert ([token] + rest)[1..] == rest;
  }

  /** A spec naming an unregistered type throws `ReferenceError`, but only when it is reached with a token. */
  lemma MissingParserThrows(parsers: map<string, Parser>, msg: Message, declared: seq<Argument>, idx: nat,
                            tokens: seq<string>, acc: map<string, Value>)
    requires idx < |declared| && declared[idx].typeTag !in parsers
    ensures var r := ParseFrom(parsers, msg, declared, idx, tokens, acc);
      (tokens != [] && tokens[0] != "") ==>
        r == ParseState(tokens, ArgsThrew(ReferenceError(MissingParserText(declared[idx].typeTag))))
  {
  }

  /** On success every stored key is the key of a declared spec (or was already there). */
  lemma {:induction false} ParsedKeysAreDeclared(parsers: map<string, Parser>, msg: Message, declared: seq<Argument>, idx: nat,
                                                 tokens: seq<string>, acc: map<string, Value>)
    requires idx <= |declared|
    ensures var r := ParseFrom(parsers, msg, declared, idx, tokens, acc);
      r.outcome.ArgsParsed? ==>
        forall k <- r.outcome.parsed :: k in acc || exists j :: idx <= j < |declared| && Key(declared[j]) == k
    decreases |declared| - idx
  {
    if idx < |declared| {
      var arg := declared[idx];
      if tokens == [] || tokens[0] == "" {
        if arg.optional {
          ParsedKeysAreDeclared(parsers, msg, declared, idx + 1, tokens, acc);
        }
      } else if arg.typeTag in parsers {
        var p := parsers[arg.typeTag];
        if arg.acceptMultiple {
          var pieces := Split(tokens[0], Delimiter(arg));
          var n := PieceCount(arg, |pieces|);
          match ParsePiecesFrom(p, msg, arg, pieces[..n], 0, [])
          case BadPiece(x) =>
          case AllParsed(vs) =>
            ParsedKeysAreDeclared(parsers, msg, declared, idx + 1, tokens[1..], acc[Key(arg) := List(vs)]);
            var r := ParseFrom(parsers, msg, declared, idx + 1, tokens[1..], acc[Key(arg) := List(vs)]);
            if r.outcome.ArgsParsed? {
              KeysWiden(r.outcome.parsed, acc, List(vs), declared, idx);
            }
        } else {
          var v := p.parse(msg, tokens[0], arg);
          if Falsy(v) {
            if arg.optional {
              ParsedKeysAreDeclared(parsers, msg, declared, idx + 1, tokens, acc);
            }
          } else {
            ParsedKeysAreDeclared(parsers, msg, declared, idx + 1, tokens[1..], acc[Key(arg) := v]);
            var r := ParseFrom(parsers, msg, declared, idx + 1, tokens[1..], acc[Key(arg) := v]);
            if r.outcome.ArgsParsed? {
              KeysWiden(r.outcome.parsed, acc, v, declared, idx);
            }
          }
        }
      }
    }
  }

  /** Keys declared from `idx + 1` on, or stored at `idx`, are keys declared from `idx` on. */
  lemma KeysWiden(parsed: map<string, Value>, acc: map<string, Value>, v: Value, declared: seq<Argument>, idx: nat)
    requires idx < |declared|
    requires forall k <- parsed :: k in acc[Key(declared[idx]) := v] || exists j :: idx + 1 <= j < |declared| && Key(declared[j]) == k
    ensures forall k <- parsed :: k in acc || exists j :: idx <= j < |declared| && Key(declared[j]) == k
  {
    forall k <- parsed
      ensures k in acc || exists j :: idx <= j < |declared| && Key(declared[j]) == k
    {
      if k == Key(declared[idx]) {
        assert idx <= idx < |declared|;
      }
    }
  }

  /** At most one token per declared spec is consumed. */
  lemma {:induction false} ConsumesAtMostOnePerSpec(parsers: map<string, Parser>, msg: Message, declared: seq<Argument>, idx: nat,
                                                    tokens: seq<string>, acc: map<string, Value>)
    requires idx <= |declared|
    ensures |tokens| - |ParseFrom(parsers, msg, declared, idx, tokens, acc).tokens| <= |declared| - idx
    decreases |declared| - idx
  {
    if idx < |declared| {
      var arg := declared[idx];
      if tokens == [] || tokens[0] == "" {
        if arg.optional {
          ConsumesAtMostOnePerSpec(parsers, msg, declared, idx + 1, tokens, acc);
        }
      } else if arg.typeTag in parsers {
        var p := parsers[arg.typeTag];
        if arg.acceptMultiple {
          var pieces := Split(tokens[0], Delimiter(arg));
          var n := PieceCount(arg, |pieces|);
          match ParsePiecesFrom(p, msg, arg, pieces[..n], 0, [])
          case BadPiece(x) =>
          case AllParsed(vs) =>
            ConsumesAtMostOnePerSpec(parsers, msg, declared, idx + 1, tokens[1..], acc[Key(arg) := List(vs)]);
        } else {
          var v := p.parse(msg, tokens[0], arg);
          if Falsy(v) {
            if arg.optional {
              ConsumesAtMostOnePerSpec(parsers, msg, declared, idx + 1, tokens, acc);
            }
          } else {
            ConsumesAtMostOnePerSpec(parsers, msg, declared, idx + 1, tokens[1..], acc[Key(arg) := v]);
          }
        }
      }
    }
  }

  /** `[{type: "number", name: "n"}]` against `["42", "extra"]` gives `{n: 42}` and leaves `["extra"]`. */
  lemma NumberExample(parsers: map<string, Parser>, msg: Message, arg: Argument)
    requires arg == Argument("number", Some("n"), false, false, None, None)
    requires "number" in parsers && parsers["number"].parse(msg, "42", arg) == Number(42)
    ensures ParseArgsSpec(parsers, msg, [arg], ["42", "extra"]) == ParseState(["extra"], ArgsParsed(map["n" := Number(42)]))
  {
    var tokens := ["42", "extra"];
    assert tokens == ["42"] + ["extra"] && Truthy(Number(42)) && Key(arg) == "n";
    SingleTokenSpec(parsers, msg, [arg], 0, "42", ["extra"], map[]);
    calc {
      ParseFrom(parsers, msg, [arg], 0, tokens, map[]);
      ParseFrom(parsers, msg, [arg], 1, ["extra"], map["n" := Number(42)]);
      ParseState(["extra"], ArgsParsed(map["n" := Number(42)]));
    }
  }
}
