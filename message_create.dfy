/**
 * messageCreate.ts: the entry point for every incoming message. It picks the
 * first configured prefix the content starts with (ignoring case, and reading a
 * nickname mention `<@!` as `<@`), cuts that many characters off the original
 * content, tokenizes the rest, resolves the first token through the registry,
 * executes the command on the remaining tokens and sends a truthy result.
 */
module MessageCreate {
  import opened Js
  import opened JsStrings
  import opened Chat
  import opened Tokenizer
  import opened Commands
  import opened Registry
  import opened Util

  /**
   * The content as the prefix test reads it: the first `<@!` made `<@`, then
   * upper-cased. It is one character shorter exactly when there was a `<@!`.
   */
  function Normalized(content: string): (r: string)
    ensures |r| == |content| - (if IndexOf(content, "<@!").Some? then 1 else 0)
    ensures IndexOf(content, "<@!").None? ==> r == ToUpperCase(content)
  {
    ToUpperCase(ReplaceFirst(content, "<@!", "<@"))
  }

  predicate PrefixMatches(content: string, p: string) {
    StartsWith(Normalized(content), ToUpperCase(p))
  }

  /**
   * A prefix matches when the first `|p|` characters of the content, with its
   * first `<@!` read as `<@`, equal `p` ignoring case.
   */
  lemma PrefixMatchesIgnoringCase(content: string, p: string)
    ensures PrefixMatches(content, p) <==>
      var m := ReplaceFirst(content, "<@!", "<@");
      |p| <= |m| && EqualsCaseInsensitive(m[..|p|], p)
  {
    var m := ReplaceFirst(content, "<@!", "<@");
    if |p| <= |m| {
      UpperPrefix(m, |p|);
    }
  }

  /** `prefix.find(...)` from index `i` on. */
  function FindPrefixFrom(prefixes: seq<string>, content: string, i: nat): (r: Option<nat>)
    requires i <= |prefixes|
    ensures r.Some? ==> i <= r.value < |prefixes| && PrefixMatches(content, prefixes[r.value])
    ensures r.Some? ==> forall j :: i <= j < r.value ==> !PrefixMatches(content, prefixes[j])
    ensures r.None? ==> forall j :: i <= j < |prefixes| ==> !PrefixMatches(content, prefixes[j])
    decreases |prefixes| - i
  {
    if i == |prefixes| then None
    else if PrefixMatches(content, prefixes[i]) then Some(i)
    else FindPrefixFrom(prefixes, content, i + 1)
  }

  /** The prefix used: the first in list order that the content starts with, if any. */
  function PrefixUsed(prefixes: seq<string>, content: string): (r: Option<string>)
    ensures r.None? <==> forall p <- prefixes :: !PrefixMatches(content, p)
    ensures r.Some? ==> exists i :: 0 <= i < |prefixes| && prefixes[i] == r.value && PrefixMatches(content, r.value)
                                    && forall j :: 0 <= j < i ==> !PrefixMatches(content, prefixes[j])
  {
    match FindPrefixFrom(prefixes, content, 0)
    case None => None
    case Some(i) => Some(prefixes[i])
  }

  /** What handling one message does: the messages sent and how the handler ends. */
  datatype Dispatch = Dispatch(sends: seq<Outgoing>, completion: Completion<()>)

  const Ignored: Dispatch := Dispatch([], Normal(()))

  /** The end of the handler once `exec` is done: a truthy response is sent, once. */
  function Respond(o: Outcome): (d: Dispatch)
    ensures o.completion.Abrupt? ==> d == Dispatch(o.sends, Abrupt(o.completion.error))
    ensures o.completion.Normal? && Truthy(o.completion.value) ==>
      d == Dispatch(o.sends + [Content(o.completion.value)], Normal(()))
    ensures o.completion.Normal? && Falsy(o.completion.value) ==> d == Dispatch(o.sends, Normal(()))
  {
    match o.completion
    case Abrupt(e) => Dispatch(o.sends, Abrupt(e))
    case Normal(v) => Dispatch(o.sends + (if Truthy(v) then [Content(v)] else []), Normal(()))
  }

  /** The tokens after the prefix: the ORIGINAL content, less `|prefix|` characters, tokenized. */
  function ArgsAfter(content: string, prefix: string): (r: seq<string>)
    ensures forall t <- r :: t != "" && WellFormed(t)
    ensures |content| <= |prefix| ==> r == []
  {
    var rest := SliceFrom(content, |prefix|);
    TokensWellFormed(rest);
    assert |content| <= |prefix| ==> Matches(rest, 0) == [""];
    Tokenize(rest)
  }

  /**
   * `messageCreate(msg)`. An empty prefix is found by `find` but is falsy, so it
   * is treated like no prefix at all.
   */
  function MessageCreateSpec(env: Env, msg: Message): (d: Dispatch)
    ensures d != Ignored ==>
      && PrefixUsed(env.prefixes, msg.content).Some? && PrefixUsed(env.prefixes, msg.content).value != ""
      && var args := ArgsAfter(msg.content, PrefixUsed(env.prefixes, msg.content).value);
         args != [] && FindIndex(env.commands, args[0]).Some?
  {
    match PrefixUsed(env.prefixes, msg.content)
    case None => Ignored
    case Some(p) => if p == "" then Ignored else CommandDispatch(env, msg, ArgsAfter(msg.content, p))
  }

  /** The rest of the handler once a prefix is used: the first token names the command, the others are its arguments. */
  function CommandDispatch(env: Env, msg: Message, args: seq<string>): (d: Dispatch)
    ensures d != Ignored ==> args != [] && FindIndex(env.commands, args[0]).Some?
  {
    if args == [] then Ignored
    else match FindIndex(env.commands, args[0])
      case None => Ignored
      case Some(i) => Respond(ExecSpec(env, env.commands[i], msg, args[1..]))
  }

  /**
   * The handler, step by step: `env` is what the client holds (its `commands`
   * those of `registry`, its `prefixes` what `resolvePrefix` gave for `msg`).
   */
  method HandleMessage(env: Env, registry: CommandRegistry, msg: Message, channel: Channel) returns (r: Completion<()>)
    requires registry.commands == env.commands
    modifies channel
    ensures var d := MessageCreateSpec(env, msg);
      channel.log == old(channel.log) + d.sends && r == d.completion
  {
    var prefix := env.prefixes;
    var prefixUsed := PrefixUsed(prefix, msg.content);
    if prefixUsed.Some? && prefixUsed.value != "" {
      var tokens := ArgsAfter(msg.content, prefixUsed.value);
      TokensWellFormed(SliceFrom(msg.content, |prefixUsed.value|));
      r := RunCommand(env, registry, msg, tokens, channel);
      return;
    }
    return Normal(());
  }

  /**
   * `args.shift()`, then `resolve(command)?.exec(msg, args)` and the reply, on
   * the tokens after the prefix (none of them empty: the handler filters those).
   */
  method RunCommand(env: Env, registry: CommandRegistry, msg: Message, tokens: seq<string>, channel: Channel)
    returns (r: Completion<()>)
    requires registry.commands == env.commands
    requires forall i :: 0 <= i < |tokens| ==> tokens[i] != ""
    modifies channel
    ensures var d := CommandDispatch(env, msg, tokens);
      channel.log == old(channel.log) + d.sends && r == d.completion
  {
    var args := new StringArray(tokens);
    var command := args.Shift();
    if command.Some? && command.value != "" {
      var target := registry.Resolve(command.value);
      if target.Some? {
        var response := Exec(env, target.value, msg, args, channel);
        if response.Abrupt? {
          return Abrupt(response.error);
        }
        if Truthy(response.value) {
          channel.CreateMessage(Content(response.value));
        }
      }
    }
    return Normal(());
  }

  // ---------------------------------------------------------------------------
  // Properties of the entry point

  /**
   * Once a non-empty prefix is chosen and the first token names a registered
   * command, that command runs on the tokens after it, and what it returns is
   * sent only when truthy.
   */
  lemma {:induction false} DispatchesFirstToken(env: Env, msg: Message, p: string, t: string, rest: seq<string>, i: nat)
    requires PrefixUsed(env.prefixes, msg.content) == Some(p) && p != ""
    requires ArgsAfter(msg.content, p) == [t] + rest
    requires FindIndex(env.commands, t) == Some(i)
    ensures MessageCreateSpec(env, msg) == Respond(ExecSpec(env, env.commands[i], msg, rest))
  {
    assert ([t] + rest)[1..] == rest;
  }

  /** A first token that no registered command handles sends nothing. */
  lemma UnknownCommandIgnored(env: Env, msg: Message, p: string, t: string, rest: seq<string>)
    requires PrefixUsed(env.prefixes, msg.content) == Some(p) && p != ""
    requires ArgsAfter(msg.content, p) == [t] + rest
    requires forall c <- env.commands :: !c.Handles(t)
    ensures MessageCreateSpec(env, msg) == Ignored
  {
    assert ([t] + rest)[0] == t;
  }

  /** Upper-casing commutes with taking a prefix. */
  lemma UpperPrefix(s: string, k: nat)
    requires k <= |s|
    ensures ToUpperCase(s)[..k] == ToUpperCase(s[..k])
  {
  }

  /** A nickname mention followed by a command name. */
  const MentionContent: string := "<@!42> ping"

  /**
   * The cut is measured on the original content: with prefix `<@42>` a nickname
   * mention `<@!42> ping` matches, but dropping 5 characters of the original
   * leaves `> ping`, whose first token is `>`.
   */
  lemma MentionCutsOriginal()
    ensures PrefixUsed(["<@42>"], MentionContent) == Some("<@42>")
    ensures ArgsAfter(MentionContent, "<@42>") == [">", "ping"]
  {
    MentionMatches();
    CutTokens(SliceFrom(MentionContent, 5));
  }

  /** `<@42>` matches the nickname mention once `<@!` is rewritten to `<@`. */
  lemma MentionMatches()
    ensures PrefixUsed(["<@42>"], MentionContent) == Some("<@42>")
  {
    var s := MentionContent;
    assert IndexFrom(s, "<@!", 0) == Some(0) by {
      assert s[0..3] == "<@!";
    }
    var replaced := ReplaceFirst(s, "<@!", "<@");
    assert replaced == "<@" + s[3..];
    assert replaced[..5] == "<@42>";
    UpperPrefix(replaced, 5);
    assert ToUpperCase("<@42>") == "<@42>";
    assert PrefixMatches(s, "<@42>");
    assert FindPrefixFrom(["<@42>"], s, 0) == Some(0);
  }

  /** What is left after the cut splits into `>` and `ping`. */
  lemma CutTokens(rest: string)
    requires rest == "> ping"
    ensures Tokenize(rest) == [">", "ping"]
  {
    assert NoQuotes(rest);
    NoQuotesGivesWords(rest);
    PingWord(rest);
    assert !Stops(rest[0]) && "" + [rest[0]] == ">";
    assert rest[1] == ' ' && Stops(rest[1]);
    assert WordsFrom(rest, 1, ">") == [">"] + WordsFrom(rest, 2, "");
    assert WordsFrom(rest, 0, "") == WordsFrom(rest, 1, ">");
  }

  /** The run `ping` after the space is the last word. */
  lemma PingWord(rest: string)
    requires rest == "> ping"
    ensures WordsFrom(rest, 2, "") == ["ping"]
  {
    assert RunEnd(rest, 2) == 6 by {
      assert RunEnd(rest, 5) == 6;
      assert RunEnd(rest, 4) == 6;
      assert RunEnd(rest, 3) == 6;
    }
    WordsAcrossRun(rest, 2, 6, "");
    assert "" + rest[2..6] == "ping";
    assert WordsFrom(rest, 6, "ping") == ["ping"];
  }
}
