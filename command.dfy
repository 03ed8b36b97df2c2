/**
 * Command.ts, with the two built-in commands HelpCommand.ts and SudoCommand.ts:
 * a command is a node of a tree (its `subCommands`, each pointing back through
 * `parent`), matched by label or alias without regard to case, and executed by
 * an early-return pipeline: owner guard, requirements guard, permissions
 * guard, routing to the first child that handles the first token, argument
 * parsing, and finally the command's own `run`.
 *
 * A command's `run` is its `Handler`: a custom routine (a pure function of the
 * message, the tokens and the parsed arguments, giving the messages it sends
 * and its completion), the help command or the sudo command. Sudo executes
 * another command, so execution and the built-ins are one mutually recursive
 * unit; every trip around the cycle consumes a token.
 */
module Commands {
  import opened Js
  import opened JsStrings
  import opened Chat
  import opened Util
  import opened HelpLayout

  /** What a custom `run` does: the messages it sends itself, and what it returns or throws. */
  datatype RunResult = RunResult(sends: seq<Outgoing>, completion: Completion<Value>)

  datatype Handler =
    | Custom(run: (Message, seq<string>, Option<map<string, Value>>) -> RunResult)
    | HelpHandler
    | SudoHandler

  /**
   * The options a command is constructed with (`CommandOptions`, less the
   * description, which only `createEmbed` reads). An options object that is
   * missing altogether behaves as `NoOptions`.
   */
  datatype CommandOptions = CommandOptions(
    aliases: Option<seq<string>>,
    subCommands: Option<seq<Command>>,
    arguments: Option<seq<Argument>>,
    category: Option<string>,
    ownerOnly: bool,
    permissions: Option<seq<string>>,
    requirements: Option<Message -> bool>)

  const NoOptions: CommandOptions := CommandOptions(None, None, None, None, false, None, None)

  function SubcommandsOf(options: CommandOptions): seq<Command> {
    if options.subCommands.Some? then options.subCommands.value else []
  }

  ghost function MaxHeight(ks: seq<Command>): (h: nat)
    ensures forall k <- ks :: k.height <= h
  {
    if ks == [] then 0
    else
      var rest := MaxHeight(ks[1..]);
      assert forall k <- ks :: k == ks[0] || k in ks[1..];
      if ks[0].height <= rest then rest else ks[0].height
  }

  class Command {
    const mainLabel: string
    const options: CommandOptions
    const handler: Handler
    /** The depth of the subtree below this command: the measure for walking it. */
    ghost const height: nat
    var parent: Command?

    function Children(): seq<Command> {
      SubcommandsOf(options)
    }

    /** Every subcommand sits lower in the tree. */
    ghost predicate Valid()
      decreases height
    {
      forall k <- Children() :: k.height < height && k.Valid()
    }

    /** The constructor of Command: records label and options and points every subcommand back here. */
    constructor (mainLabel: string, options: CommandOptions, handler: Handler)
      requires forall k <- SubcommandsOf(options) :: k.Valid()
      modifies SubcommandsOf(options)
      ensures this.mainLabel == mainLabel && this.options == options && this.handler == handler
      ensures parent == null
      ensures Valid()
      ensures forall k <- Children() :: k.parent == this
    {
      this.mainLabel := mainLabel;
      this.options := options;
      this.handler := handler;
      this.height := MaxHeight(SubcommandsOf(options)) + 1;
      this.parent := null;
      new;
      var subCommands := Children();
      for i := 0 to |subCommands|
        invariant parent == null
        invariant forall j :: 0 <= j < i ==> subCommands[j].parent == this
      {
        subCommands[i].parent := this;
      }
    }

    /** `handles(t)`: `t` equals the label or one of the aliases, ignoring case. */
    function Handles(t: string): (r: bool)
      ensures EqualsCaseInsensitive(t, mainLabel) ==> r
      ensures options.aliases.Some? ==> forall a <- options.aliases.value :: EqualsCaseInsensitive(t, a) ==> r
      ensures options.aliases.None? ==> (r <==> EqualsCaseInsensitive(t, mainLabel))
    {
      || EqualsCaseInsensitive(t, mainLabel)
      || (options.aliases.Some? && exists a <- options.aliases.value :: EqualsCaseInsensitive(t, a))
    }

    /**
     * What `getSubcommands` returns: nothing without a `subCommands` option,
     * otherwise the children in order followed by each child's own result.
     */
    function SubcommandsSpec(): (r: Option<seq<Command>>)
      requires Valid()
      ensures r.None? <==> options.subCommands.None?
      ensures r.Some? ==> |r.value| >= |Children()| && r.value[..|Children()|] == Children()
      decreases height, 1
    {
      if options.subCommands.None? then None
      else Some(Children() + Descend(Children(), height))
    }

    /** `getSubcommands`: the loop concatenates each child's result onto the list built so far. */
    method GetSubcommands() returns (r: Option<seq<Command>>)
      requires Valid()
      ensures r == SubcommandsSpec()
      decreases height
    {
      if options.subCommands.None? {
        return None;
      }
      var subCommands := options.subCommands.value;
      var all := subCommands;
      for i := 0 to |subCommands|
        invariant all == subCommands + Descend(subCommands[..i], height)
      {
        var more := subCommands[i].GetSubcommands();
        DescendSnoc(subCommands[..i], subCommands[i], height);
        assert subCommands[..i + 1] == subCommands[..i] + [subCommands[i]];
        all := all + more.GetOr([]);
      }
      assert subCommands[..|subCommands|] == subCommands;
      return Some(all);
    }

    /**
     * `getUsage(prefix)`: walks the `parent` links up to the root, putting each
     * label in front, then appends the argument placeholders. The chain of
     * parents must end, which the lineage witness states.
     */
    method GetUsage(prefix: string) returns (u: string)
      requires exists chain :: IsLineage(this, chain)
      ensures forall chain :: IsLineage(this, chain) ==> u == Usage(prefix, this, chain)
    {
      ghost var chain :| IsLineage(this, chain);
      var baseCommand := "";
      var p: Command? := this;
      ghost var i := 0;
      while p != null
        invariant 0 <= i <= |chain|
        invariant p == if i < |chain| then chain[i] else null
        invariant baseCommand == BaseCommand(chain[..i])
        decreases |chain| - i
      {
        BaseCommandPrepend(chain, i);
        baseCommand := p.mainLabel + " " + baseCommand;
        p := p.parent;
        i := i + 1;
      }
      assert chain[..i] == chain;
      u := prefix + baseCommand + " " + ArgsUsage(options);
      forall other | IsLineage(this, other)
        ensures u == Usage(prefix, this, other)
      {
        LineageUnique(this, chain, other);
      }
    }
  }

  /** The results of the children's `getSubcommands`, concatenated in child order. */
  function Descend(ks: seq<Command>, ghost h: nat): seq<Command>
    requires forall k <- ks :: k.Valid() && k.height < h
    decreases h, 0, |ks|
  {
    if ks == [] then [] else ks[0].SubcommandsSpec().GetOr([]) + Descend(ks[1..], h)
  }

  lemma {:induction false} DescendSnoc(ks: seq<Command>, k: Command, h: nat)
    requires forall x <- ks :: x.Valid() && x.height < h
    requires k.Valid() && k.height < h
    ensures Descend(ks + [k], h) == Descend(ks, h) + k.SubcommandsSpec().GetOr([])
  {
    var own := k.SubcommandsSpec().GetOr([]);
    if ks != [] {
      var tail := ks[1..];
      assert (ks + [k])[0] == ks[0] && (ks + [k])[1..] == tail + [k];
      assert Descend(ks + [k], h) == ks[0].SubcommandsSpec().GetOr([]) + Descend(tail + [k], h);
      DescendSnoc(tail, k, h);
      assert Descend(ks, h) == ks[0].SubcommandsSpec().GetOr([]) + Descend(tail, h);
    } else {
      assert [k][1..] == [];
      assert Descend([k], h) == own + Descend([], h);
    }
  }

  /** `d` lies strictly below `c` in the command tree. */
  ghost predicate IsDescendant(d: Command, c: Command)
    requires c.Valid()
    decreases c.height
  {
    exists k <- c.Children() :: k == d || IsDescendant(d, k)
  }

  /** `getSubcommands` lists exactly the commands below this one (nothing when it has no `subCommands`). */
  lemma {:induction false} SubcommandsAreDescendants(c: Command, d: Command)
    requires c.Valid()
    ensures d in c.SubcommandsSpec().GetOr([]) <==> IsDescendant(d, c)
    decreases c.height, 1
  {
    DescendMembers(c.Children(), c.height, d);
  }

  lemma {:induction false} DescendMembers(ks: seq<Command>, h: nat, d: Command)
    requires forall k <- ks :: k.Valid() && k.height < h
    ensures d in ks + Descend(ks, h) <==> exists k <- ks :: k == d || IsDescendant(d, k)
    decreases h, 0, |ks|
  {
    if ks != [] {
      var first, tail := ks[0], ks[1..];
      assert ks == [first] + tail;
      var own := first.SubcommandsSpec().GetOr([]);
      assert Descend(ks, h) == own + Descend(tail, h);
      SubcommandsAreDescendants(first, d);
      DescendMembers(tail, h, d);
      assert (d in ks + Descend(ks, h)) <==> (d == first || d in own || d in tail + Descend(tail, h));
      assert (exists k <- ks :: k == d || IsDescendant(d, k))
         <==> ((first == d || IsDescendant(d, first)) || exists k <- tail :: k == d || IsDescendant(d, k));
    }
  }

  // ---------------------------------------------------------------------------
  // getUsage

  /** The parent links from `c` up to the root, which has no parent. */
  ghost predicate IsLineage(c: Command, chain: seq<Command>)
    reads chain
  {
    && |chain| >= 1 && chain[0] == c
    && (forall i :: 0 <= i < |chain| - 1 ==> chain[i].parent == chain[i + 1])
    && chain[|chain| - 1].parent == null
  }

  /** Only the last command of a lineage has no parent. */
  lemma RootIsLast(c: Command, chain: seq<Command>)
    requires IsLineage(c, chain)
    ensures forall i :: 0 <= i < |chain| ==> (chain[i].parent == null <==> i == |chain| - 1)
  {
    forall i | 0 <= i < |chain| - 1
      ensures chain[i].parent != null
    {
      assert chain[i].parent == chain[i + 1];
    }
  }

  /** The parent chain of a command is determined by the heap: there is at most one. */
  lemma LineageUnique(c: Command, a: seq<Command>, b: seq<Command>)
    requires IsLineage(c, a) && IsLineage(c, b)
    ensures a == b
  {
    var n := if |a| <= |b| then |a| else |b|;
    for i := 0 to n
      invariant forall j :: 0 <= j < i ==> a[j] == b[j]
    {
      if i > 0 {
        assert a[i] == a[i - 1].parent == b[i - 1].parent == b[i];
      }
    }
    RootIsLast(c, a);
    RootIsLast(c, b);
  }

  /** The labels from the root down to `chain[0]`, each followed by a space. */
  function BaseCommand(chain: seq<Command>): (r: string)
    ensures chain != [] ==> StartsWith(r, chain[|chain| - 1].mainLabel + " ")
  {
    if chain == [] then "" else BaseCommand(chain[1..]) + chain[0].mainLabel + " "
  }

  lemma {:induction false} BaseCommandPrepend(chain: seq<Command>, i: nat)
    requires i < |chain|
    ensures BaseCommand(chain[..i + 1]) == chain[i].mainLabel + " " + BaseCommand(chain[..i])
  {
    if i > 0 {
      assert chain[..i + 1][1..] == chain[1..][..i];
      assert chain[..i][1..] == chain[1..][..i - 1];
      BaseCommandPrepend(chain[1..], i - 1);
    } else {
      assert chain[..1][1..] == [];
    }
  }

  /** `<name (type)>`, with "?" for a missing or empty name. */
  function ArgUsage(a: Argument): string {
    "<" + (if a.name.Some? && a.name.value != "" then a.name.value else "?") + " (" + a.typeTag + ")>"
  }

  function ArgUsages(args: seq<Argument>): (r: seq<string>)
    ensures |r| == |args| && forall i :: 0 <= i < |args| ==> r[i] == ArgUsage(args[i])
  {
    seq(|args|, i requires 0 <= i < |args| => ArgUsage(args[i]))
  }

  function ArgsUsage(options: CommandOptions): string {
    if options.arguments.Some? then Join(ArgUsages(options.arguments.value), " ") else ""
  }

  /** What `getUsage(prefix)` returns for `c` whose parent chain is `chain`. */
  function Usage(prefix: string, c: Command, chain: seq<Command>): (r: string)
    ensures chain != [] ==> StartsWith(r, prefix + chain[|chain| - 1].mainLabel + " ")
    ensures |ArgsUsage(c.options)| <= |r| && r[|r| - |ArgsUsage(c.options)|..] == ArgsUsage(c.options)
  {
    var base := BaseCommand(chain);
    var args := ArgsUsage(c.options);
    var r := prefix + base + " " + args;
    assert r == (prefix + base) + (" " + args);
    assert chain != [] ==> (prefix + base)[..|prefix| + |chain[|chain| - 1].mainLabel + " "|]
                           == prefix + chain[|chain| - 1].mainLabel + " ";
    r
  }

  /** The labels appear root first: for a chain `c, parent, root` the base is "root parent c ". */
  lemma BaseCommandOrder(a: Command, b: Command, r: Command)
    ensures BaseCommand([a, b, r]) == r.mainLabel + " " + b.mainLabel + " " + a.mainLabel + " "
  {
    assert [a, b, r][1..] == [b, r];
    assert [b, r][1..] == [r];
    assert [r][1..] == [];
    assert BaseCommand([r]) == r.mainLabel + " ";
    assert BaseCommand([b, r]) == r.mainLabel + " " + b.mainLabel + " ";
  }

  // ---------------------------------------------------------------------------
  // Lookup among a list of commands (subcommand routing and the registry)

  /** `commands.find(c => c.handles(t))`, as an index. */
  function FindFrom(cs: seq<Command>, t: string, i: nat): (r: Option<nat>)
    requires i <= |cs|
    ensures r.Some? ==> i <= r.value < |cs| && cs[r.value].Handles(t)
    ensures r.Some? ==> forall j :: i <= j < r.value ==> !cs[j].Handles(t)
    ensures r.None? ==> forall j :: i <= j < |cs| ==> !cs[j].Handles(t)
    decreases |cs| - i
  {
    if i == |cs| then None else if cs[i].Handles(t) then Some(i) else FindFrom(cs, t, i + 1)
  }

  function FindIndex(cs: seq<Command>, t: string): (r: Option<nat>)
    ensures r.Some? ==> r.value < |cs| && cs[r.value].Handles(t) && forall j :: 0 <= j < r.value ==> !cs[j].Handles(t)
    ensures r.None? <==> forall j :: 0 <= j < |cs| ==> !cs[j].Handles(t)
  {
    FindFrom(cs, t, 0)
  }

  /** Matching ignores case: a command handling `t` handles every spelling of `t`. */
  lemma HandlesIgnoresCase(c: Command, t: string, u: string)
    requires EqualsCaseInsensitive(t, u)
    ensures c.Handles(t) <==> c.Handles(u)
  {
  }

  // ---------------------------------------------------------------------------
  // exec

  const OwnerOnlyText: string := "Only the bot owner can use this command."
  const RequirementsText: string := "You do not meet the requirements to run this command."
  const GuildOnlyText: string := "This command cannot be used outside of guilds."
  const CommandNotFoundText: string := "Command not found"
  const NoCommandText: string := "No command found."

  function MissingPermissionsText(permissions: seq<string>): string {
    "You do not have the reuquired permissions to run this command! (" + Join(permissions, ", ") + ")"
  }

  /** What a result of undefined `resolvePrefix` indexing or property reading raises. */
  const UndefinedUpperCase: string := "toUpperCase of undefined"
  const UndefinedReplace: string := "replace of undefined"
  const UndefinedLength: string := "length of undefined"

  /**
   * What a command sees of the client: the owner id, the parser registry, the
   * registered commands in order, the help categories, and the prefixes
   * `resolvePrefix` gave for the message at hand.
   */
  datatype Env = Env(
    owner: string,
    parsers: map<string, Parser>,
    commands: seq<Command>,
    categories: Option<seq<Category>>,
    prefixes: seq<string>)

  predicate OwnerOk(env: Env, options: CommandOptions, msg: Message) {
    !options.ownerOnly || env.owner == msg.authorId
  }

  predicate RequirementsOk(options: CommandOptions, msg: Message) {
    options.requirements.None? || options.requirements.value(msg)
  }

  predicate PermissionsOk(options: CommandOptions, msg: Message) {
    options.permissions.None? ||
      (msg.member.Some? && forall p <- options.permissions.value :: p in msg.member.value.permissions)
  }

  /** The message of the first guard that fails, in the order owner, requirements, permissions. */
  function GuardFailure(env: Env, options: CommandOptions, msg: Message): (r: Option<string>)
    ensures r.None? <==> OwnerOk(env, options, msg) && RequirementsOk(options, msg) && PermissionsOk(options, msg)
    ensures !OwnerOk(env, options, msg) ==> r == Some(OwnerOnlyText)
    ensures OwnerOk(env, options, msg) && !RequirementsOk(options, msg) ==> r == Some(RequirementsText)
    ensures OwnerOk(env, options, msg) && RequirementsOk(options, msg) && options.permissions.Some? ==>
      (msg.member.None? ==> r == Some(GuildOnlyText)) &&
      (msg.member.Some? && !PermissionsOk(options, msg) ==> r == Some(MissingPermissionsText(options.permissions.value)))
  {
    if options.ownerOnly && env.owner != msg.authorId then Some(OwnerOnlyText)
    else if options.requirements.Some? && !options.requirements.value(msg) then Some(RequirementsText)
    else if options.permissions.Some? && msg.member.None? then Some(GuildOnlyText)
    else if options.permissions.Some? && !(forall p <- options.permissions.value :: p in msg.member.value.permissions) then
      Some(MissingPermissionsText(options.permissions.value))
    else None
  }

  /** How executing a command ends: what it sent, its completion, and its token array afterwards. */
  datatype Outcome = Outcome(sends: seq<Outgoing>, completion: Completion<Value>, tokens: seq<string>)

  /** The child a command routes the tokens to, if any. */
  function RouteTo(c: Command, args: seq<string>): (r: Option<nat>)
    ensures r.Some? ==>
      && args != [] && args[0] != "" && r.value < |c.Children()|
      && c.Children()[r.value].Handles(args[0])
      && forall j :: 0 <= j < r.value ==> !c.Children()[j].Handles(args[0])
    ensures r.None? ==> args == [] || args[0] == "" || forall j :: 0 <= j < |c.Children()| ==> !c.Children()[j].Handles(args[0])
  {
    if |c.Children()| > 0 && args != [] && args[0] != "" then FindIndex(c.Children(), args[0]) else None
  }

  /** `exec(msg, args)`. */
  function ExecSpec(env: Env, c: Command, msg: Message, args: seq<string>): (r: Outcome)
    ensures IsSuffix(r.tokens, args)
    decreases |args|, 2
  {
    var guard := GuardFailure(env, c.options, msg);
    if guard.Some? then Outcome([Text(guard.value)], Normal(Undefined), args)
    else match RouteTo(c, args)
      case Some(k) =>
        var o := ExecSpec(env, c.Children()[k], msg, args[1..]);
        Outcome(o.sends, o.completion, args)
      case None =>
        if c.options.arguments.Some? then
          var st := ParseArgsSpec(env.parsers, msg, c.options.arguments.value, args);
          match st.outcome
          case ArgsParsed(parsed) =>
            var o := RunSpec(env, c, msg, st.tokens, Some(parsed));
            SuffixTransitive(o.tokens, st.tokens, args);
            o
          case ArgsRejected(_) => Outcome(Sends(st.outcome), Normal(Undefined), st.tokens)
          case ArgsThrew(e) => Outcome([], Abrupt(e), st.tokens)
        else RunSpec(env, c, msg, args, None)
  }

  /**
   * When the guards pass, no child takes the first token and the declared
   * arguments parse, `exec` runs the command itself on the tokens the parse
   * left, with the parsed values.
   */
  lemma ParsedRuns(env: Env, c: Command, msg: Message, args: seq<string>)
    requires GuardFailure(env, c.options, msg).None? && RouteTo(c, args).None?
    requires c.options.arguments.Some?
    requires ParseArgsSpec(env.parsers, msg, c.options.arguments.value, args).outcome.ArgsParsed?
    ensures var st := ParseArgsSpec(env.parsers, msg, c.options.arguments.value, args);
      ExecSpec(env, c, msg, args) == RunSpec(env, c, msg, st.tokens, Some(st.outcome.parsed))
  {
  }

  /** `run(msg, args, parsed)` of whichever kind of command `c` is. */
  function RunSpec(env: Env, c: Command, msg: Message, args: seq<string>, parsed: Option<map<string, Value>>): (r: Outcome)
    ensures IsSuffix(r.tokens, args)
    decreases |args|, 1
  {
    match c.handler
    case Custom(run) =>
      var r := run(msg, args, parsed);
      Outcome(r.sends, r.completion, args)
    case HelpHandler => HelpSpec(env, msg, args)
    case SudoHandler => SudoSpec(env, msg, args)
  }

  /**
   * Sudo's `run`: shift the first token, resolve it, and exec the target on the
   * rest. With no token, `resolve(undefined)` upper-cases `undefined` as soon
   * as there is a registered command to compare it with.
   */
  function SudoSpec(env: Env, msg: Message, args: seq<string>): (r: Outcome)
    ensures IsSuffix(r.tokens, args)
    decreases |args|, 0
  {
    if args == [] then
      (if env.commands == [] then Outcome([], Normal(Str(CommandNotFoundText)), [])
       else Outcome([], Abrupt(RuntimeTypeError(UndefinedUpperCase)), []))
    else match FindIndex(env.commands, args[0])
      case None => Outcome([], Normal(Str(CommandNotFoundText)), args[1..])
      case Some(i) =>
        var o := ExecSpec(env, env.commands[i], msg, args[1..]);
        SuffixTransitive(o.tokens, args[1..], args);
        o
  }

  /**
   * `prefix` of the help listing: the first prefix with its first backtick
   * escaped. With no prefix at all, `undefined.replace` throws.
   */
  function HelpPrefix(prefixes: seq<string>): Completion<string>
  {
    if prefixes == [] then Abrupt(RuntimeTypeError(UndefinedReplace))
    else Normal(ReplaceFirst(prefixes[0], "`", "\\`"))
  }

  /**
   * The help listing throws exactly when there is no prefix; otherwise its
   * prefix is the first one, one character longer when it holds a backtick
   * and unchanged when it does not.
   */
  lemma HelpPrefixEscapes(prefixes: seq<string>)
    ensures HelpPrefix(prefixes).Abrupt? <==> prefixes == []
    ensures prefixes == [] ==> HelpPrefix(prefixes) == Abrupt(RuntimeTypeError(UndefinedReplace))
    ensures prefixes != [] ==>
      var r := HelpPrefix(prefixes).value;
      && |r| == |prefixes[0]| + (if IndexOf(prefixes[0], "`").Some? then 1 else 0)
      && (IndexOf(prefixes[0], "`").None? ==> r == prefixes[0])
  {
  }

  /**
   * `prefix + label` of every command, in registration order, that belongs to
   * category `id` and is not owner-only.
   */
  function Listed(commands: seq<Command>, id: string, prefix: string): (r: seq<string>)
    ensures |r| <= |commands|
    ensures forall s :: s in r <==>
      exists c <- commands :: c.options.category == Some(id) && !c.options.ownerOnly && s == prefix + c.mainLabel
  {
    if commands == [] then []
    else
      var c := commands[0];
      var rest := Listed(commands[1..], id, prefix);
      assert forall x <- commands :: x == c || x in commands[1..];
      (if c.options.category == Some(id) && !c.options.ownerOnly then [prefix + c.mainLabel] else []) + rest
  }

  /** The listing keeps registration order: that of `a + b` is the listing of `a`, then that of `b`. */
  lemma {:induction false} ListedAppend(a: seq<Command>, b: seq<Command>, id: string, prefix: string)
    ensures Listed(a + b, id, prefix) == Listed(a, id, prefix) + Listed(b, id, prefix)
  {
    if a != [] {
      assert (a + b)[1..] == a[1..] + b;
      ListedAppend(a[1..], b, id, prefix);
    } else {
      assert a + b == b;
    }
  }

  /** One command is listed, as `prefix + label`, exactly when it is in the category and not owner-only. */
  lemma ListedSingle(c: Command, id: string, prefix: string)
    ensures Listed([c], id, prefix) == if c.options.category == Some(id) && !c.options.ownerOnly then [prefix + c.mainLabel] else []
  {
    assert [c][1..] == [];
  }

  function HelpFields(categories: seq<Category>, commands: seq<Command>, prefix: string): (r: seq<Field>)
    ensures |r| == |categories|
    ensures forall k :: 0 <= k < |categories| ==> r[k] == CategoryField(categories[k], Listed(commands, categories[k].id, prefix))
  {
    seq(|categories|, k requires 0 <= k < |categories| => CategoryField(categories[k], Listed(commands, categories[k].id, prefix)))
  }

  function HelpEmbeds(pages: seq<Embed>): (r: seq<Outgoing>)
    ensures |r| == |pages| && forall j :: 0 <= j < |pages| ==> r[j] == HelpEmbed(pages[j])
  {
    seq(|pages|, j requires 0 <= j < |pages| => HelpEmbed(pages[j]))
  }

  /**
   * Help's `run`: with a token, the embed of the command it names (or "No
   * command found."); without one, the category listing, paged by 25 fields.
   */
  function HelpSpec(env: Env, msg: Message, args: seq<string>): (r: Outcome)
    ensures r.tokens == args
    ensures |args| > 0 ==> r.completion.Normal? && |r.sends| <= 1
  {
    if |args| > 0 then
      match FindIndex(env.commands, args[0])
      case None => Outcome([], Normal(Str(NoCommandText)), args)
      case Some(i) => Outcome([CommandEmbed(env.commands[i].mainLabel)], Normal(Undefined), args)
    else match HelpPrefix(env.prefixes)
      case Abrupt(e) => Outcome([], Abrupt(e), args)
      case Normal(prefix) =>
        if env.categories.None? then Outcome([], Abrupt(RuntimeTypeError(UndefinedLength)), args)
        else if env.categories.value == [] then Outcome([], Normal(Undefined), args)
        else
          var fields := HelpFields(env.categories.value, env.commands, prefix);
          Outcome(HelpEmbeds(HelpPages(fields)), Normal(Undefined), args)
  }

  // ---------------------------------------------------------------------------
  // The pipeline, step by step

  /** `exec`: the guards, routing, argument parsing and `run`, shifting the caller's tokens in place. */
  method Exec(env: Env, c: Command, msg: Message, args: StringArray, channel: Channel) returns (completion: Completion<Value>)
    modifies args, channel
    ensures var o := ExecSpec(env, c, msg, old(args.items));
      args.items == o.tokens && channel.log == old(channel.log) + o.sends && completion == o.completion
    decreases |args.items|, 3
  {
    var passed := CheckGuards(env, c.options, msg, channel);
    if !passed {
      return Normal(Undefined);
    }
    completion := Dispatch(env, c, msg, args, channel);
  }

  /** The rest of `exec` once every guard has passed: route to a child, or parse the arguments and `run`. */
  method Dispatch(env: Env, c: Command, msg: Message, args: StringArray, channel: Channel) returns (completion: Completion<Value>)
    requires GuardFailure(env, c.options, msg).None?
    modifies args, channel
    ensures var o := ExecSpec(env, c, msg, old(args.items));
      args.items == o.tokens && channel.log == old(channel.log) + o.sends && completion == o.completion
    decreases |args.items|, 2
  {
    var options := c.options;
    ghost var before := args.items;
    if |c.Children()| > 0 {
      if args.items != [] && args.items[0] != "" {
        var handler := FindIndex(c.Children(), args.items[0]);
        if handler.Some? {
          assert RouteTo(c, before) == handler;
          var rest := new StringArray(args.items[1..]);
          completion := Exec(env, c.Children()[handler.value], msg, rest, channel);
          return;
        }
      }
    }
    assert RouteTo(c, before).None?;
    if options.arguments.Some? {
      var result := ParseArgs(env.parsers, msg, options.arguments.value, args, channel);
      match result
      case Unparsed =>
        return Normal(Undefined);
      case Raised(e) =>
        return Abrupt(e);
      case Parsed(given, parsed) =>
        ParsedRuns(env, c, msg, before);
        completion := Run(env, c, msg, given, Some(parsed), channel);
        return;
    }
    completion := Run(env, c, msg, args, None, channel);
  }

  /** The guards at the top of `exec`: the first that fails sends its notice and ends the call. */
  method CheckGuards(env: Env, options: CommandOptions, msg: Message, channel: Channel) returns (passed: bool)
    modifies channel
    ensures passed <==> GuardFailure(env, options, msg).None?
    ensures channel.log == old(channel.log) + if passed then [] else [Text(GuardFailure(env, options, msg).value)]
  {
    if options.ownerOnly && env.owner != msg.authorId {
      channel.CreateMessage(Text(OwnerOnlyText));
      return false;
    }
    if options.requirements.Some? {
      if !options.requirements.value(msg) {
        channel.CreateMessage(Text(RequirementsText));
        return false;
      }
    }
    if options.permissions.Some? {
      if msg.member.None? {
        channel.CreateMessage(Text(GuildOnlyText));
        return false;
      }
      var hasAllPerms := forall p <- options.permissions.value :: p in msg.member.value.permissions;
      if !hasAllPerms {
        channel.CreateMessage(Text(MissingPermissionsText(options.permissions.value)));
        return false;
      }
    }
    return true;
  }

  method Run(env: Env, c: Command, msg: Message, args: StringArray, parsed: Option<map<string, Value>>, channel: Channel)
    returns (completion: Completion<Value>)
    modifies args, channel
    ensures var o := RunSpec(env, c, msg, old(args.items), parsed);
      args.items == o.tokens && channel.log == old(channel.log) + o.sends && completion == o.completion
    decreases |args.items|, 1
  {
    match c.handler
    case Custom(run) =>
      var r := run(msg, args.items, parsed);
      channel.CreateMessages(r.sends);
      completion := r.completion;
    case HelpHandler =>
      completion := HelpRun(env, msg, args, channel);
    case SudoHandler =>
      completion := SudoRun(env, msg, args, channel);
  }

  /** SudoCommand's `run`. */
  method SudoRun(env: Env, msg: Message, args: StringArray, channel: Channel) returns (completion: Completion<Value>)
    modifies args, channel
    ensures var o := SudoSpec(env, msg, old(args.items));
      args.items == o.tokens && channel.log == old(channel.log) + o.sends && completion == o.completion
    decreases |args.items|, 0
  {
    var command := args.Shift();
    if command.None? {
      if env.commands != [] {
        return Abrupt(RuntimeTypeError(UndefinedUpperCase));
      }
      return Normal(Str(CommandNotFoundText));
    }
    var commandObj := FindIndex(env.commands, command.value);
    if commandObj.Some? {
      completion := Exec(env, env.commands[commandObj.value], msg, args, channel);
      return;
    }
    return Normal(Str(CommandNotFoundText));
  }

  /** The help embeds for pages `0 .. k - 1`. */
  function SentPages(fields: seq<Field>, k: nat): seq<Outgoing>
    requires k <= |fields| / PageSize
  {
    seq(k, j requires 0 <= j < k => HelpEmbed(Page(fields, j)))
  }

  /** A page filled to 25 fields is a whole page of the listing, sent before the next one. */
  lemma FullPageSent(fields: seq<Field>, k: nat)
    requires PageSize * k + PageSize <= |fields|
    ensures k + 1 <= |fields| / PageSize
    ensures Page(fields, k) == Embed(TitleAt(k), fields[PageSize * k..PageSize * k + PageSize])
    ensures SentPages(fields, k + 1) == SentPages(fields, k) + [HelpEmbed(Page(fields, k))]
  {
  }

  /** The fields left over once every full page is sent make up the last page. */
  lemma LastPageSent(fields: seq<Field>, k: nat)
    requires PageSize * k <= |fields| < PageSize * k + PageSize
    ensures k == |fields| / PageSize
    ensures Page(fields, k) == Embed(TitleAt(k), fields[PageSize * k..])
    ensures HelpEmbeds(HelpPages(fields)) == SentPages(fields, k) + [HelpEmbed(Page(fields, k))]
  {
  }

  /** HelpCommand's `run`: the embed is filled field by field and sent each time it reaches 25. */
  method HelpRun(env: Env, msg: Message, args: StringArray, channel: Channel) returns (completion: Completion<Value>)
    modifies channel
    ensures var o := HelpSpec(env, msg, args.items);
      args.items == o.tokens && channel.log == old(channel.log) + o.sends && completion == o.completion
  {
    if |args.items| > 0 {
      var command := FindIndex(env.commands, args.items[0]);
      if command.None? {
        return Normal(Str(NoCommandText));
      }
      channel.CreateMessage(CommandEmbed(env.commands[command.value].mainLabel));
      return Normal(Undefined);
    }
    var categories := env.categories;
    var commands := env.commands;
    if env.prefixes == [] {
      return Abrupt(RuntimeTypeError(UndefinedReplace));
    }
    var prefix := ReplaceFirst(env.prefixes[0], "`", "\\`");
    if categories.None? {
      return Abrupt(RuntimeTypeError(UndefinedLength));
    }
    if |categories.value| > 0 {
      SendListing(categories.value, commands, prefix, channel);
    }
    return Normal(Undefined);
  }

  /**
   * The category branch of HelpCommand's `run`: the embed is filled field by
   * field, sent each time it reaches 25 fields, and sent once more at the end.
   */
  method SendListing(cats: seq<Category>, commands: seq<Command>, prefix: string, channel: Channel)
    modifies channel
    ensures channel.log == old(channel.log) + HelpEmbeds(HelpPages(HelpFields(cats, commands, prefix)))
  {
    ghost var fields := HelpFields(cats, commands, prefix);
    var embedTitle := "Help";
    var embedFields: seq<Field> := [];
    ghost var k: nat := 0;
    for i := 0 to |cats|
      invariant i == PageSize * k + |embedFields| && |embedFields| < PageSize
      invariant embedFields == fields[PageSize * k..i]
      invariant embedTitle == TitleAt(k)
      invariant k <= |fields| / PageSize
      invariant channel.log == old(channel.log) + SentPages(fields, k)
    {
      var field := CategoryField(cats[i], Listed(commands, cats[i].id, prefix));
      assert fields[PageSize * k..i + 1] == fields[PageSize * k..i] + [field];
      embedFields := embedFields + [field];
      if |embedFields| == PageSize {
        FullPageSent(fields, k);
        channel.CreateMessage(HelpEmbed(Embed(embedTitle, embedFields)));
        embedTitle := "Help, cont.";
        embedFields := [];
        k := k + 1;
      }
    }
    LastPageSent(fields, k);
    channel.CreateMessage(HelpEmbed(Embed(embedTitle, embedFields)));
  }

  // ---------------------------------------------------------------------------
  // Properties of the pipeline

  /** The options of the built-in commands: sudo is owner-only, help has none. */
  const SudoOptions: CommandOptions := NoOptions.(ownerOnly := true)

  /** `new SudoCommand(bot)`. */
  method NewSudoCommand() returns (c: Command)
    ensures fresh(c) && c.mainLabel == "sudo" && c.options == SudoOptions && c.handler == SudoHandler && c.Valid()
  {
    c := new Command("sudo", SudoOptions, SudoHandler);
  }

  /** `new HelpCommand(bot)`. */
  method NewHelpCommand() returns (c: Command)
    ensures fresh(c) && c.mainLabel == "help" && c.options == NoOptions && c.handler == HelpHandler && c.Valid()
  {
    c := new Command("help", NoOptions, HelpHandler);
  }

  /** The first failing guard sends its one message and stops: no routing, no parsing, no `run`. */
  lemma GuardStopsExec(env: Env, c: Command, msg: Message, args: seq<string>)
    requires GuardFailure(env, c.options, msg).Some?
    ensures ExecSpec(env, c, msg, args) == Outcome([Text(GuardFailure(env, c.options, msg).value)], Normal(Undefined), args)
  {
  }

  /** Sudo is owner-only: anyone else gets the owner message and nothing is relayed. */
  lemma SudoNeedsOwner(env: Env, c: Command, msg: Message, args: seq<string>)
    requires c.options == SudoOptions && env.owner != msg.authorId
    ensures ExecSpec(env, c, msg, args) == Outcome([Text(OwnerOnlyText)], Normal(Undefined), args)
  {
  }

  /**
   * Routing: with the guards passed and a child handling the first token, the
   * first such child runs on the tokens after it, and the parent's own arguments
   * and `run` are skipped; the parent's array is left as it was.
   */
  lemma RoutingDelegates(env: Env, c: Command, msg: Message, args: seq<string>, k: nat)
    requires GuardFailure(env, c.options, msg).None?
    requires args != [] && args[0] != "" && k < |c.Children()| && c.Children()[k].Handles(args[0])
    requires forall j :: 0 <= j < k ==> !c.Children()[j].Handles(args[0])
    ensures var o := ExecSpec(env, c.Children()[k], msg, args[1..]);
      ExecSpec(env, c, msg, args) == Outcome(o.sends, o.completion, args)
  {
    assert RouteTo(c, args) == Some(k);
  }

  /** Without routing and without declared arguments, `run` receives every token. */
  lemma NoArgumentsRunsOnAllTokens(env: Env, c: Command, msg: Message, args: seq<string>)
    requires GuardFailure(env, c.options, msg).None? && RouteTo(c, args).None? && c.options.arguments.None?
    ensures ExecSpec(env, c, msg, args) == RunSpec(env, c, msg, args, None)
  {
  }

  /**
   * With declared arguments, tokens that do not parse send the parser's one
   * message and end the execution without `run`: the outcome is the same
   * whatever the command's handler is.
   */
  lemma ParseFailureSkipsRun(env: Env, c: Command, msg: Message, args: seq<string>)
    requires GuardFailure(env, c.options, msg).None? && RouteTo(c, args).None? && c.options.arguments.Some?
    requires ParseArgsSpec(env.parsers, msg, c.options.arguments.value, args).outcome.ArgsRejected?
    ensures var st := ParseArgsSpec(env.parsers, msg, c.options.arguments.value, args);
      ExecSpec(env, c, msg, args) == Outcome([Text(st.outcome.message)], Normal(Undefined), st.tokens)
  {
  }

  lemma SuffixTransitive(a: seq<string>, b: seq<string>, c: seq<string>)
    requires IsSuffix(a, b) && IsSuffix(b, c)
    ensures IsSuffix(a, c)
  {
    assert c[|c| - |b|..][|b| - |a|..] == c[|c| - |a|..];
  }


  /**
   * Sudo relays to the command its first token names, guards included: the
   * `true` it passes along is not a parameter of `exec`. An unknown name answers
   * "Command not found".
   */
  lemma SudoRelays(env: Env, msg: Message, t: string, rest: seq<string>)
    ensures var o := SudoSpec(env, msg, [t] + rest);
      match FindIndex(env.commands, t)
      case None => o == Outcome([], Normal(Str(CommandNotFoundText)), rest)
      case Some(i) => o == ExecSpec(env, env.commands[i], msg, rest)
  {
    assert ([t] + rest)[1..] == rest;
  }

  /** With a token, help looks the name up: unknown names answer "No command found.", known ones send their embed. */
  lemma HelpLooksUpName(env: Env, msg: Message, args: seq<string>)
    requires |args| > 0
    ensures var o := HelpSpec(env, msg, args);
      && o.tokens == args
      && (FindIndex(env.commands, args[0]).None? ==> o.sends == [] && o.completion == Normal(Str(NoCommandText)))
      && (FindIndex(env.commands, args[0]).Some? ==>
            o.sends == [CommandEmbed(env.commands[FindIndex(env.commands, args[0]).value].mainLabel)]
            && o.completion == Normal(Undefined))
  {
  }

  /**
   * The category listing: one embed per 25 categories plus the one in
   * progress, none with more than 25 fields, the first titled "Help" and the
   * rest "Help, cont.", and their fields, read in order, one per category.
   */
  lemma HelpListingShape(env: Env, msg: Message)
    requires env.prefixes != [] && env.categories.Some? && env.categories.value != []
    ensures var o := HelpSpec(env, msg, []);
      var prefix := ReplaceFirst(env.prefixes[0], "`", "\\`");
      var fields := HelpFields(env.categories.value, env.commands, prefix);
      && o.completion == Normal(Undefined)
      && |o.sends| == |env.categories.value| / PageSize + 1
      && (forall j :: 0 <= j < |o.sends| ==> o.sends[j].HelpEmbed? && |o.sends[j].embed.fields| <= PageSize)
      && o.sends[0].embed.title == "Help"
      && (forall j :: 1 <= j < |o.sends| ==> o.sends[j].embed.title == "Help, cont.")
      && Flatten(HelpPages(fields)) == fields
      && o.sends == HelpEmbeds(HelpPages(fields))
  {
    var prefix := ReplaceFirst(env.prefixes[0], "`", "\\`");
    var fields := HelpFields(env.categories.value, env.commands, prefix);
    PageSizes(fields);
    PageTitles(fields);
    FieldsInOrder(fields);
  }

  /** Without a token and without categories configured, help reads `length` of undefined and throws. */
  lemma HelpWithoutCategories(env: Env, msg: Message)
    requires env.prefixes != [] && env.categories.None?
    ensures HelpSpec(env, msg, []) == Outcome([], Abrupt(RuntimeTypeError(UndefinedLength)), [])
  {
  }

  /**
   * The command tree of the example bot: ping has subcommand a, a has b, b has
   * c, and c declares one argument `LOL` of type `time`. Listing ping's
   * subcommands gives a, b, c, and c's usage spells the whole path.
   */
  method PingTreeExample() returns (labels: seq<string>, usage: string)
    ensures labels == ["a", "b", "c"]
    ensures usage == "!ping a b c  <LOL (time)>"
  {
    var quiet := Custom((m: Message, a: seq<string>, p: Option<map<string, Value>>) => RunResult([], Normal(Undefined)));
    var c := new Command("c", NoOptions.(aliases := Some(["cc"]), arguments := Some([Argument("time", Some("LOL"), false, false, None, None)])), quiet);
    var b := new Command("b", NoOptions.(aliases := Some(["bb"]), subCommands := Some([c])), quiet);
    var a := new Command("a", NoOptions.(aliases := Some(["aa"]), subCommands := Some([b]),
                                         arguments := Some([Argument("string", Some("I hate you"), false, false, None, None)])), quiet);
    var ping := new Command("ping", NoOptions.(aliases := Some(["p"]), subCommands := Some([a])), quiet);
    var subs := ping.GetSubcommands();
    TreeSubcommands(ping, a, b, c);
    labels := [subs.value[0].mainLabel, subs.value[1].mainLabel, subs.value[2].mainLabel];
    assert IsLineage(c, [c, b, a, ping]);
    usage := c.GetUsage("!");
    PathUsage(c, b, a, ping);
  }

  /** In the example tree, ping's subcommands are a, b, c: children first, then theirs. */
  lemma TreeSubcommands(ping: Command, a: Command, b: Command, c: Command)
    requires ping.Valid() && ping.Children() == [a] && a.Children() == [b] && b.Children() == [c] && c.Children() == []
    requires ping.options.subCommands.Some? && a.options.subCommands.Some? && b.options.subCommands.Some?
    requires c.options.subCommands.None?
    ensures ping.SubcommandsSpec().Some? && ping.SubcommandsSpec().value == [a, b, c]
  {
    assert a in ping.Children() && a.Valid() && a.height < ping.height;
    assert b in a.Children() && b.Valid() && b.height < a.height;
    assert c in b.Children() && c.Valid() && c.height < b.height;
    assert c.SubcommandsSpec() == None;
    assert Descend([c], b.height) == [] by {
      assert [c][1..] == [];
    }
    assert b.SubcommandsSpec() == Some(b.Children() + Descend(b.Children(), b.height));
    assert b.SubcommandsSpec().value == [c] + [];
    assert b.SubcommandsSpec().value == [c];
    assert Descend([b], a.height) == [c] by {
      assert [b][1..] == [];
    }
    assert a.SubcommandsSpec() == Some(a.Children() + Descend(a.Children(), a.height));
    assert a.SubcommandsSpec().value == [b] + [c];
    assert a.SubcommandsSpec().value == [b, c];
    assert Descend([a], ping.height) == [b, c] by {
      assert [a][1..] == [];
    }
    assert ping.SubcommandsSpec() == Some(ping.Children() + Descend(ping.Children(), ping.height));
    assert ping.SubcommandsSpec().value == [a] + [b, c];
  }

  /** The usage line of c in the example tree: the prefix, the path from the root, and c's one argument. */
  lemma PathUsage(c: Command, b: Command, a: Command, ping: Command)
    requires c.mainLabel == "c" && b.mainLabel == "b" && a.mainLabel == "a" && ping.mainLabel == "ping"
    requires c.options.arguments == Some([Argument("time", Some("LOL"), false, false, None, None)])
    ensures Usage("!", c, [c, b, a, ping]) == "!ping a b c  <LOL (time)>"
  {
    assert "!" + "ping a b c " + " " + "<LOL (time)>" == "!ping a b c  <LOL (time)>";
    var chain := [c, b, a, ping];
    assert BaseCommand(chain) == "ping a b c " by {
      assert chain[1..] == [b, a, ping];
      BaseCommandOrder(b, a, ping);
    }
    var arg := Argument("time", Some("LOL"), false, false, None, None);
    assert ArgsUsage(c.options) == "<LOL (time)>" by {
      assert ArgUsage(arg) == "<LOL (time)>";
      assert ArgUsages([arg]) == ["<LOL (time)>"];
    }
    calc {
      Usage("!", c, chain);
      "!" + BaseCommand(chain) + " " + ArgsUsage(c.options);
      "!" + "ping a b c " + " " + "<LOL (time)>";
    }
  }
}
