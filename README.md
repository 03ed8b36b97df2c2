# karasu core, modelled in Dafny

karasu is a command framework for Discord bots written in TypeScript. This project
models its core:

- **Argument resolution.** `parseArgs` walks the declared argument specs in
  order. It shifts the tokens it consumes off the caller's array. It then
  returns the parsed values, sends one message and gives up, or throws when a
  type has no parser.
- **Commands.** A command is a tree node matched by label or alias, ignoring
  case. Its `exec` pipeline is the owner guard, then the requirements guard,
  then the permissions guard, then routing to a sub-command, then argument
  parsing, then `run`.
- **The command registry.** It registers, unregisters, resolves and hot-reloads
  commands.
- **The message entry point.** It chooses a prefix, tokenizes with the source's
  regular expression, resolves the command, executes it and sends a truthy
  response.
- **The built-in commands.** `sudo` relays to another command. `help` lists
  categories, 25 fields per embed.
- **Collectors.** A collector waits for N matching events, or times out, and
  resolves a promise. The collector manager subscribes one handler per event
  name and removes collectors from its list as they complete.

Effects become explicit state:

- A channel is a class with an append-only log of what was sent.
- The token array is a class whose `items` are shifted in place.
- Thrown errors are `Completion` values.
- Each collector keeps its promise's settlement and the events it emitted.
- A firing of an event handler (`Fire`) and a firing of a timer (`TimerFires`)
  are explicit steps. Each is followed by the `.then` callbacks of the promises
  it settled, as the microtask queue runs them.

Each stateful method is proved against a specification function
(`ExecSpec`, `ParseArgsSpec`, `ValidateSpec`, `FireSpec`, ...). The properties
are proved about those functions.

Behaviour reproduced as written, where it looks unintended:

- The handler in CollectorManager.ts splices index `i` of the filtered
  snapshot out of the full list. The `.then` callback splices the collector's
  registration index. Both can remove the wrong collector
  (`SnapshotIndexRemovesOther`, `ResolutionRemovesTwice`).
- messageCreate.ts matches the prefix against the content with `<@!`
  rewritten to `<@`. It then cuts `prefix.length` characters off the original
  content (`MentionCutsOriginal`).
- An empty prefix is found by `find` but is falsy, so it is ignored.
- `sudo` passes a third argument `true` to `exec`, which ignores it.
- With no token, `sudo` throws once any command is registered.
  `resolve(undefined)` upper-cases `undefined`.
- With `limit` 1, a match after the timeout calls a `null` resolve and throws
  (`MatchAfterTimeoutThrows`).

## Model

| member | source | states |
|---|---|---|
| Util.EqualsCaseInsensitivePointwise | src/util.ts:7-9 | two strings are equal ignoring case iff they have the same length and the same upper-cased character at every index |
| Util.EqualsCaseInsensitiveIsEquivalence | src/util.ts:7-9 | case-insensitive equality is reflexive, symmetric and transitive |
| Util.EqualsCaseInsensitive | src/util.ts:7-9 | equal strings compare equal, and strings that compare equal have the same length (characterized by `EqualsCaseInsensitivePointwise`) |
| Util.Delimiter | src/util.ts:51 | the delimiter `arg.delimiter \|\| ";"` is never empty |
| Util.PieceCount | src/util.ts:53 | the inner loop runs `min(pieces, limit \|\| 5)` times, and not at all for a negative limit |
| Util.Sends | src/util.ts:35-72 | an outcome sends exactly one message when it rejects and none otherwise |
| Util.ParseFrom | src/util.ts:28-79 | the tokens parseArgs leaves are always a suffix of the tokens it was given |
| Util.ParseArgsSpec | src/util.ts:25-84 | the reference parseArgs leaves a suffix of the given tokens and consumes at most one token per declared spec (stepped by `NoTokens`, `SingleTokenSpec`, `MultipleConsumesOneToken`, `MissingParserThrows`) |
| Util.ParsePieces | src/util.ts:53-62 | the inner loop equals the piece-by-piece reference definition: all values in order, or the first falsy piece |
| Util.ParsePiecesFrom | src/util.ts:53-62 | the reference inner loop: on success one value per remaining piece after the ones pushed; a reported piece is one of the remaining pieces (characterized by `PiecesAllParsed`, `PiecesFirstBad`) |
| Util.ParseArgs | src/util.ts:25-84 | the array is shifted in place to the reference tokens and at most one message is sent; the result is `{given, parsed}` with the caller's own array, `undefined`, or the thrown error |
| Util.NoTokens | src/util.ts:31-38 | at any spec position, with any values parsed so far, no tokens or an empty first token: optional specs are skipped, no token is consumed, and the result is success with the values so far, or rejection with the count of ALL required specs; no parser is looked up |
| Util.NoTokensParse | src/util.ts:28-38 | with no tokens, parseArgs succeeds with no keys iff every spec is optional, and otherwise sends "Not enough arguments" |
| Util.PiecesAllParsed | src/util.ts:53-64 | when every piece parses, the list holds each piece's truthy parse, in order |
| Util.PiecesFirstBad | src/util.ts:53-59 | the piece reported as invalid is the first whose parse is falsy |
| Util.MultipleConsumesOneToken | src/util.ts:45-66 | an acceptMultiple spec at any position, with any tokens after its own and any values so far, consumes exactly its token: either the parses of the first `min(pieces, limit \|\| 5)` pieces, in order, are stored as a list and the next spec continues on the rest, or the first falsy piece is reported with the spec's index; it never throws |
| Util.MultipleStep | src/util.ts:45-66 | one step of the outer loop on an acceptMultiple spec: the result of the inner loop over the first pieces decides between rejecting with the token consumed and continuing on the rest with the list stored |
| Util.SingleTokenSpec | src/util.ts:68-78 | a single-token spec at any position, with any values so far: a truthy parse is stored under the key and shifts that token; a falsy parse rejects a required spec naming the index and the parser's display name, and skips an optional one without a key, keeping the token |
| Util.MissingParserThrows | src/util.ts:40 | a spec whose type has no parser throws ReferenceError when reached with a token |
| Util.ParseOne | src/util.ts:28-79 | one spec of the loop either ends the call as the reference does (message sent and `undefined`, or the throw) or leaves the reference result unchanged for the next spec |
| Util.ParsedKeysAreDeclared | src/util.ts:64-76 | on success every stored key is the key of a declared spec |
| Util.ConsumesAtMostOnePerSpec | src/util.ts:28-79 | parseArgs consumes at most one token per declared spec |
| Util.NumberExample | src/util.ts:68-83 | `[{type: "number", name: "n"}]` on `["42", "extra"]` gives `{n: 42}` and leaves `["extra"]` |
| JsStrings.ToUpperCase | src/util.ts:8 | upper-casing keeps the length and maps every character independently |
| JsStrings.IndexOf | src/events/messageCreate.ts:8 | the index is that of the first occurrence; none means no occurrence anywhere |
| JsStrings.ReplaceFirst | src/events/messageCreate.ts:8 | a string pattern replaces only its first occurrence, and nothing when absent |
| JsStrings.SliceFrom | src/events/messageCreate.ts:11 | slicing past the end gives the empty string |
| JsStrings.Split | src/util.ts:51 | split gives at least one piece; joining the pieces with the separator restores the string; no piece contains the separator; every cut is at the leftmost occurrence of the separator in what remains |
| JsStrings.SplitLeftmostExample | src/util.ts:51 | `"aaa".split("aa")` is `["", "a"]`: overlapping occurrences are cut from the left |
| JsStrings.DecimalRoundTrip | src/util.ts:35 | the decimal rendering of a count reads back as that count |
| Js.StringArray.Shift | src/util.ts:77 | `shift` removes and returns the first element, or returns undefined on an empty array |
| Chat.Channel.CreateMessage | src/events/messageCreate.ts:18 | a sent message is appended to the channel's log |
| Tokenizer.CloseFrom | src/events/messageCreate.ts:11 | a quoted alternative closes at the first matching quote, with no backspace before it; when it finds no close, every later quote of that kind has a backspace before it |
| Tokenizer.RunEnd | src/events/messageCreate.ts:11 | the bare alternative takes the longest run of characters that are not whitespace or backspace |
| Tokenizer.MatchAt | src/events/messageCreate.ts:11 | every match advances the global regex scan by at least one position |
| Tokenizer.NonEmpty | src/events/messageCreate.ts:11 | `filter(arg => arg !== "")` keeps only non-empty matches |
| Tokenizer.Tokenize | src/events/messageCreate.ts:11 | every token is non-empty and is one of the regex's matches on the text (`TokensWellFormed`, `NoQuotesGivesWords`, `QuotedToken`, `QuotedExample` pin it down further) |
| Tokenizer.MatchesWellFormed | src/events/messageCreate.ts:11 | every match is a quoted token or a bare run without whitespace |
| Tokenizer.TokensWellFormed | src/events/messageCreate.ts:11 | every token is non-empty and well formed |
| Tokenizer.NoQuotesGivesWords | src/events/messageCreate.ts:11 | on text without quotes the tokens are the whitespace-separated words |
| Tokenizer.ExampleMatches | src/events/messageCreate.ts:11 | the raw matches of `foo "bar baz" 'qux'` include the empty matches at each gap |
| Tokenizer.QuotedExample | src/events/messageCreate.ts:11 | `foo "bar baz" 'qux'` tokenizes to `foo`, `"bar baz"`, `'qux'`, quotes kept |
| Tokenizer.QuotedToken | src/events/messageCreate.ts:11 | for any text that opens with a quote and closes it with no backspace or same quote in between, the first token is the whole phrase with both quotes, and tokenizing goes on with the rest |
| Tokenizer.MatchesShift | src/events/messageCreate.ts:11 | the scan only looks ahead: from a position inside the text it gives the same matches as a scan of the text from there on |
| Tokenizer.ScanEndsEmpty | src/events/messageCreate.ts:11 | the global scan, from any position, ends with the empty match at the end of the text |
| Commands.Command.constructor | src/Command.ts:80-90 | the new command keeps its label, options and handler, has no parent, and is the `parent` of every sub-command |
| Commands.Command.SubcommandsSpec | src/Command.ts:161-171 | getSubcommands is absent exactly without `subCommands`, and starts with the direct children |
| Commands.Command.GetSubcommands | src/Command.ts:161-171 | the concatenating loop equals the reference: children followed by each child's descendants |
| Commands.SubcommandsAreDescendants | src/Command.ts:161-171 | a command is in getSubcommands iff it is a descendant |
| Commands.DescendMembers | src/Command.ts:164-168 | the concatenated lists hold exactly the given commands and their descendants |
| Commands.Command.GetUsage | src/Command.ts:181-190 | the parent walk builds the labels root-first, then the argument placeholders |
| Commands.RootIsLast | src/Command.ts:183-187 | in a lineage only the last command has no parent |
| Commands.LineageUnique | src/Command.ts:183-187 | the parent chain of a command is unique |
| Commands.BaseCommandOrder | src/Command.ts:184-186 | prepending along the parent walk puts the root label first |
| Commands.BaseCommand | src/Command.ts:183-187 | the label part of the usage starts with the root's label and a space |
| Commands.Usage | src/Command.ts:181-189 | the usage starts with the prefix, the root's label and a space, and ends with the argument placeholders (`PathUsage` gives a full example) |
| Commands.TreeSubcommands | src/Command.ts:161-171 | a chain ping > a > b > c gives subcommands `[a, b, c]` |
| Commands.PathUsage | src/Command.ts:189 | the usage of `c` under `ping a b` is `!ping a b c  <LOL (time)>` |
| Commands.PingTreeExample | src/Command.ts:80-190 | building that tree and calling getSubcommands and getUsage gives those results |
| Commands.FindIndex | src/CommandRegistry.ts:64-66 | `find(c => c.handles(t))`: the first command that handles the token, or none iff none does |
| Commands.HandlesIgnoresCase | src/Command.ts:153-156 | `handles` gives the same answer for tokens that differ only in case |
| Commands.Command.Handles | src/Command.ts:153-156 | a token equal to the label or to an alias ignoring case is handled; without aliases exactly the label is (`Registry.HandlesByName` gives the full iff) |
| Commands.GuardFailure | src/Command.ts:99-123 | the guards pass iff owner, requirements and permissions all hold; otherwise the first failing guard's message |
| Commands.RouteTo | src/Command.ts:125-131 | routing picks the first child that handles a non-empty first token |
| Commands.CheckGuards | src/Command.ts:99-123 | the guards send the first failing guard's message and stop, or pass silently |
| Commands.Exec | src/Command.ts:98-144 | exec shifts the array, sends and completes exactly as the reference pipeline |
| Commands.ExecSpec | src/Command.ts:98-144 | the reference exec pipeline, however deep its routing and sudo relays go, only takes tokens off the front of the array (`GuardStopsExec`, `RoutingDelegates`, `ParsedRuns`, `ParseFailureSkipsRun` give its branches) |
| Commands.ParsedRuns | src/Command.ts:133-140 | when the guards pass, no sub-command takes the first token and the declared arguments parse, exec runs the command on the tokens the parse left, with the parsed values |
| Commands.RunSpec | src/Command.ts:140-143 | the reference `run` only takes tokens off the front of the array |
| Commands.Dispatch | src/Command.ts:125-143 | after the guards, routing, parsing and `run` match the reference |
| Commands.Run | src/Command.ts:140-143 | `run` of a custom, help or sudo command matches its reference |
| Commands.SudoRun | src/commands/SudoCommand.ts:12-22 | sudo shifts the target name, execs the target on the rest, or answers "Command not found" |
| Commands.SudoSpec | src/commands/SudoCommand.ts:12-22 | the reference sudo only takes tokens off the front, through the command it relays to (`SudoRelays`, `SudoNeedsOwner` give its branches) |
| Commands.HelpRun | src/HelpCommand.ts:12-53 | help matches the reference: the named command's embed, "No command found.", or the paged listing |
| Commands.HelpSpec | src/HelpCommand.ts:12-53 | help never consumes a token; with a token it completes normally after at most one message (`HelpLooksUpName`, `HelpListingShape`, `HelpWithoutCategories` give its branches) |
| Commands.SendListing | src/HelpCommand.ts:26-51 | the loop sends every full page of 25 fields and then the last page, as the paging reference does |
| Commands.FullPageSent | src/HelpCommand.ts:41-47 | a page filled to 25 fields is the next page of the listing |
| Commands.LastPageSent | src/HelpCommand.ts:51 | the fields left after the full pages form the last page |
| Commands.Listed | src/HelpCommand.ts:35 | a category lists `prefix + label` of exactly its commands that are not owner-only, and no more entries than commands |
| Commands.ListedAppend | src/HelpCommand.ts:35 | the listing keeps registration order: that of `a + b` is the listing of `a` followed by that of `b` |
| Commands.ListedSingle | src/HelpCommand.ts:35 | one command contributes `prefix + label` exactly when it is in the category and not owner-only |
| Commands.HelpPrefixEscapes | src/HelpCommand.ts:23 | the listing's prefix throws iff there is no prefix; otherwise it is the first prefix, one character longer iff it holds a backtick, and unchanged when it holds none |
| Commands.HelpFields | src/HelpCommand.ts:30-39 | there is one field per category, in order |
| Commands.NewSudoCommand | src/commands/SudoCommand.ts:6-10 | sudo is labelled "sudo" and is owner-only |
| Commands.NewHelpCommand | src/HelpCommand.ts:8-10 | help is labelled "help" and has no options |
| Commands.GuardStopsExec | src/Command.ts:99-123 | a failing guard sends its one message; there is no routing, parsing or run, and the array is untouched |
| Commands.SudoNeedsOwner | src/commands/SudoCommand.ts:6-10 | sudo from anyone but the owner sends only the owner-only message |
| Commands.RoutingDelegates | src/Command.ts:125-131 | a handling child runs on the tokens after its name; the parent's array is left as it was |
| Commands.NoArgumentsRunsOnAllTokens | src/Command.ts:143 | without routing or declared arguments, `run` receives every token |
| Commands.ParseFailureSkipsRun | src/Command.ts:133-136 | a rejected parse sends the parser's message and skips `run` |
| Commands.SudoRelays | src/commands/SudoCommand.ts:12-22 | sudo execs the command its first token names, guards included, or answers "Command not found" |
| Commands.HelpLooksUpName | src/HelpCommand.ts:13-19 | with a token, help sends that command's embed or answers "No command found." |
| Commands.HelpListingShape | src/HelpCommand.ts:21-52 | the listing sends `n / 25 + 1` embeds of at most 25 fields; the first is titled "Help", later ones "Help, cont."; together they hold every field in order |
| Commands.HelpWithoutCategories | src/HelpCommand.ts:21-25 | without configured categories, help throws reading `length` |
| HelpLayout.CategoryField | src/HelpCommand.ts:31-37 | a field is named by the category title and lists the commands joined by ", " |
| HelpLayout.HelpPages | src/HelpCommand.ts:26-51 | the listing has `n / 25 + 1` pages |
| HelpLayout.PageSizes | src/HelpCommand.ts:41-48 | every page has at most 25 fields, all but the last exactly 25, the last `n % 25` |
| HelpLayout.PageTitles | src/HelpCommand.ts:26-47 | the first page is "Help" and every later page is "Help, cont." |
| HelpLayout.FieldsInOrder | src/HelpCommand.ts:30-39 | the pages together hold every field, in order |
| HelpLayout.FullPageExample | src/HelpCommand.ts:41-51 | exactly 25 categories send a full page and then an empty "Help, cont." page |
| Registry.Names | src/Command.ts:153-156 | a command's names are its label followed by its aliases |
| Registry.HandlesByName | src/Command.ts:153-156 | a command handles a token iff some name equals it ignoring case |
| Registry.AliasClash | src/CommandRegistry.ts:50 | the second check finds the first registered command that handles an alias of the new one; none iff there is none |
| Registry.Without | src/CommandRegistry.ts:56-58 | unregister keeps exactly the commands whose label differs ignoring case |
| Registry.CommandRegistry.constructor | src/CommandRegistry.ts:8-12 | a new registry holds no commands |
| Registry.CommandRegistry.Register | src/CommandRegistry.ts:47-54 | register appends, or throws the duplicate-label or duplicate-alias TypeError and leaves the list unchanged |
| Registry.RegisterSpec | src/CommandRegistry.ts:47-54 | a successful register appends the instance after the existing commands, none of which handles its label; a failure is a TypeError (`RegisterSucceedsIffApart` gives the iff) |
| Registry.CommandRegistry.Unregister | src/CommandRegistry.ts:56-58 | unregister filters out the label |
| Registry.CommandRegistry.UnregisterAll | src/CommandRegistry.ts:60-62 | unregisterAll empties the list |
| Registry.CommandRegistry.Resolve | src/CommandRegistry.ts:64-66 | resolve gives the first command that handles the token, or none iff none does |
| Registry.CommandRegistry.Reload | src/CommandRegistry.ts:39-40 | a reload unregisters the label and registers the new instance; if that throws, the label stays unregistered |
| Registry.RegisterSucceedsIffApart | src/CommandRegistry.ts:47-54 | register succeeds iff no name of the new command clashes ignoring case; a failure is a TypeError |
| Registry.ApartSymmetric | src/CommandRegistry.ts:48-51 | name clash is symmetric |
| Registry.RegisterKeepsNamesUnique | src/CommandRegistry.ts:47-54 | register keeps every name answered by at most one command |
| Registry.WithoutKeepsNamesUnique | src/CommandRegistry.ts:56-58 | unregister keeps names unique |
| Registry.NotBothHandle | src/CommandRegistry.ts:64-66 | with unique names no two commands handle the same token |
| Registry.UniqueNamesResolveOne | src/CommandRegistry.ts:64-66 | with unique names, resolve finds the one command that handles the token |
| Registry.ReloadShape | src/CommandRegistry.ts:39-40 | a successful reload puts the new instance last, keeps names unique and keeps every other label |
| MessageCreate.Normalized | src/events/messageCreate.ts:8 | the content the prefix test reads is one character shorter iff it held `<@!`, and without one it is just the upper-cased content |
| MessageCreate.PrefixMatchesIgnoringCase | src/events/messageCreate.ts:8 | a prefix matches iff the first characters of the content, `<@!` read as `<@`, equal it ignoring case |
| MessageCreate.ArgsAfter | src/events/messageCreate.ts:11 | the tokens after the prefix are non-empty and well formed, and there are none when the prefix is at least as long as the content |
| MessageCreate.FindPrefixFrom | src/events/messageCreate.ts:8 | the prefix search returns the first prefix that matches |
| MessageCreate.PrefixUsed | src/events/messageCreate.ts:8 | the prefix used is the first, in list order, that the normalized content starts with ignoring case; none iff none matches |
| MessageCreate.Respond | src/events/messageCreate.ts:15-19 | a truthy response is sent once; a falsy one sends nothing; a throw propagates |
| MessageCreate.HandleMessage | src/events/messageCreate.ts:5-22 | the handler sends and completes as the reference dispatch does |
| MessageCreate.RunCommand | src/events/messageCreate.ts:12-21 | resolving the first token, executing the command on the rest and replying send and complete as the reference dispatch of those tokens does |
| MessageCreate.CommandDispatch | src/events/messageCreate.ts:12-21 | a dispatch that is not ignored has a first token that some registered command handles |
| MessageCreate.MessageCreateSpec | src/events/messageCreate.ts:5-22 | a message that is not ignored used a non-empty prefix and its first token names a registered command (`DispatchesFirstToken`, `UnknownCommandIgnored` give both branches) |
| MessageCreate.DispatchesFirstToken | src/events/messageCreate.ts:11-16 | the command named by the first token runs on the tokens after it |
| MessageCreate.UnknownCommandIgnored | src/events/messageCreate.ts:15 | an unknown first token sends nothing |
| MessageCreate.MentionCutsOriginal | src/events/messageCreate.ts:8-11 | with prefix `<@42>`, `<@!42> ping` matches, but the cut leaves `> ping`, tokenized as `>`, `ping` |
| Collectors.Merge | src/collectors/Collector.ts:24-27 | absent options default to timeout 30000 and limit 1; the given ones win |
| Collectors.Settle | src/collectors/Collector.ts:41 | a promise settles once; later resolves change nothing |
| Collectors.AfterEmit | src/collectors/Collector.ts:35 | an emitted event reaches listeners only until they are removed |
| Collectors.RunSpec | src/collectors/Collector.ts:53-67 | run stores the resolve and arms the timer iff the timeout is non-zero |
| Collectors.ValidateSpec | src/collectors/Collector.ts:32-51 | a rejected payload changes nothing and returns false; a settled promise stays settled; `true` means settled and timer cleared; it throws only when resolve was nulled |
| Collectors.TimeoutSpec | src/collectors/Collector.ts:58-65 | the timeout nulls resolve, disarms the timer and removes the listeners, keeping the collected list; an already settled promise stays settled |
| Collectors.Collector.constructor | src/collectors/Collector.ts:20-28 | a new collector has the merged options, no resolve, an empty list and no timer |
| Collectors.Collector.Emit | src/collectors/Collector.ts:35 | `emit` updates the state as the emission reference does |
| Collectors.Collector.Resolve | src/collectors/Collector.ts:41 | calling the stored resolve updates the state as settling does |
| Collectors.Collector.Run | src/collectors/Collector.ts:53-67 | run updates the fields as the reference does |
| Collectors.Collector.Validate | src/collectors/Collector.ts:32-51 | validate updates the fields and returns as the reference does |
| Collectors.Collector.Timeout | src/collectors/Collector.ts:58-65 | the timer callback updates the fields as the reference does |
| Collectors.AccumulatesMatches | src/collectors/Collector.ts:33-40 | below the limit, matches are appended in order, each announced as "received" with `event`; the promise stays pending (`CollectsMatches` and `AnnouncesMatches` prove the two halves) |
| Collectors.CollectsMatches | src/collectors/Collector.ts:33-40 | below the limit, matches are appended in order and the promise stays pending with the same timer and listeners |
| Collectors.AnnouncesMatches | src/collectors/Collector.ts:33-35 | with `event`, every match is announced as "received", in order |
| Collectors.MatchingAccepted | src/collectors/Collector.ts:33 | the filter keeps exactly the payloads it accepts: every kept one was given and accepted, and every accepted one is kept |
| Collectors.ResolvesAtLimit | src/collectors/Collector.ts:37-46 | the match that reaches the limit settles with the whole list, clears the timer and emits "end" |
| Collectors.RejectedLeaveState | src/collectors/Collector.ts:32-51 | payloads the filter rejects leave the collector unchanged |
| Collectors.SettledStays | src/collectors/Collector.ts:41 | once settled, no later payload changes the settlement |
| Collectors.FirstMatchResolves | src/collectors/Collector.ts:40-46 | with limit 1 the first match settles with that payload and the settlement never changes |
| Collectors.TimeoutResolvesPartial | src/collectors/Collector.ts:58-65 | a timeout settles with the matches so far when the limit is above 1, else with null |
| Collectors.MatchAfterTimeoutThrows | src/collectors/Collector.ts:40-61 | with limit 1, a match after the timeout throws calling the nulled resolve; the settlement is unchanged |
| CollectorManagers.SettlesWithPayload | src/collectors/Collector.ts:37-46 | a pending collector with limit 1 settles with the first matching payload |
| MessageCollectors.Process | src/collectors/MessageCollector.ts:9-11 | the payload is the first event argument, or undefined |
| MessageCollectors.New | src/collectors/MessageCollector.ts:5-7 | a message collector listens to "messageCreate" |
| MessageCollectors.ResolvesWithMessage | src/collectors/MessageCollector.ts:5-11 | by default the first matching message settles the promise with that message |
| ReactionCollectors.Process | src/collectors/ReactionCollector.ts:15-21 | the payload is `{msg, emoji, reactor}` from the first three arguments |
| ReactionCollectors.New | src/collectors/ReactionCollector.ts:11-13 | a reaction collector listens to "messageReactionAdd" |
| ReactionCollectors.ExtraArgumentsIgnored | src/collectors/ReactionCollector.ts:16 | arguments after the third are ignored |
| ReactionCollectors.MissingArgumentsUndefined | src/collectors/ReactionCollector.ts:16 | missing arguments become undefined |
| CollectorManagers.Targets | src/collectors/CollectorManager.ts:29 | the snapshot holds exactly the listed collectors of the event, and no duplicates when the list has none |
| CollectorManagers.TargetsAppend | src/collectors/CollectorManager.ts:29 | `filter` keeps list order: the targets of `a + b` are those of `a` followed by those of `b` |
| CollectorManagers.TargetsSingle | src/collectors/CollectorManager.ts:29 | one collector is a target exactly when it listens to the event |
| CollectorManagers.Splice | src/collectors/CollectorManager.ts:36 | `splice(i, 1)` removes position `i` when it exists and otherwise does nothing |
| CollectorManagers.Visit | src/collectors/CollectorManager.ts:32-37 | one loop turn leaves every other collector's state as it was, only drops entries from the list, keeps it duplicate-free and queues only the target |
| CollectorManagers.LoopFrom | src/collectors/CollectorManager.ts:31-38 | the handler loop leaves collectors that are not targets unchanged |
| CollectorManagers.Drain | src/collectors/CollectorManager.ts:48-52 | the `.then` callbacks only remove collectors |
| CollectorManagers.FireSpec | src/collectors/CollectorManager.ts:28-52 | a firing leaves collectors that are not listed unchanged, keeps every collector tracked and the list duplicate-free |
| CollectorManagers.TimerSpec | src/collectors/CollectorManager.ts:48-52 | a timer firing keeps every collector tracked and the list duplicate-free |
| CollectorManagers.CollectorManager.constructor | src/collectors/CollectorManager.ts:14-16 | a new manager has no handlers and no collectors |
| CollectorManagers.CollectorManager.Register | src/collectors/CollectorManager.ts:26-55 | register subscribes a handler the first time an event is seen, appends and runs the collector, records its index, and returns it or its promise |
| CollectorManagers.CollectorManager.Subscribe | src/collectors/CollectorManager.ts:27-42 | `bot.on` is called once per event name |
| CollectorManagers.CollectorManager.Track | src/collectors/CollectorManager.ts:44-53 | the collector is appended, run and given its registration index |
| CollectorManagers.CollectorManager.AwaitMessages | src/collectors/CollectorManager.ts:18-20 | awaitMessages registers a fresh running message collector as `register` does: listed last, its handler created and subscribed only if the event had none, other states unchanged, an emitter with `event` and a promise otherwise |
| CollectorManagers.CollectorManager.AwaitReactions | src/collectors/CollectorManager.ts:22-24 | awaitReactions registers a fresh running reaction collector as `register` does: listed last, its handler created and subscribed only if the event had none, other states unchanged, an emitter with `event` and a promise otherwise |
| CollectorManagers.CollectorManager.Fire | src/collectors/CollectorManager.ts:28-39 | an event firing, with the callbacks it queues, updates list and states as the reference does |
| CollectorManagers.CollectorManager.Handler | src/collectors/CollectorManager.ts:31-38 | the handler loop matches the reference loop |
| CollectorManagers.CollectorManager.VisitTarget | src/collectors/CollectorManager.ts:32-37 | one loop turn matches the reference |
| CollectorManagers.CollectorManager.Unlist | src/collectors/CollectorManager.ts:36 | `splice(i, 1)` drops one entry and keeps the manager's invariant |
| CollectorManagers.CollectorManager.ValidateListed | src/collectors/CollectorManager.ts:35 | `validate` on a listed collector changes only that collector's state, as the reference does |
| CollectorManagers.CollectorManager.ThenCallbacks | src/collectors/CollectorManager.ts:48-52 | each settled promise's callback splices its registration index |
| CollectorManagers.CollectorManager.TimerFires | src/collectors/CollectorManager.ts:48-52 | a timer firing, with its callback, matches the reference |
| CollectorManagers.LoopValidatesEach | src/collectors/CollectorManager.ts:31-38 | when no target can throw, the loop validates every target once with the event's payload |
| CollectorManagers.FireValidatesEveryTarget | src/collectors/CollectorManager.ts:28-39 | every listed collector of the event sees the payload exactly once; the others are unchanged |
| CollectorManagers.SnapshotIndexRemovesOther | src/collectors/CollectorManager.ts:29-36 | completing the only message collector, listed second, splices out the reaction collector listed first |
| CollectorManagers.RejectedVisit | src/collectors/CollectorManager.ts:35-37 | a target whose filter rejects the payload changes nothing, and nothing is spliced |
| CollectorManagers.SameEventTargets | src/collectors/CollectorManager.ts:29 | three collectors of one event are all targets, in list order |
| CollectorManagers.SecondSplice | src/collectors/CollectorManager.ts:48-52 | the `.then` callback of the collector registered at index 0 removes the first element of `[y, z]`, leaving `[z]` |
| CollectorManagers.OnlyFirstCompletes | src/collectors/CollectorManager.ts:31-38 | when only the first of three targets completes, it alone changes state, is spliced out and is queued for its callback, and the loop ends normally |
| CollectorManagers.ResolutionRemovesTwice | src/collectors/CollectorManager.ts:35-52 | one resolution removes two collectors: the handler splices one and the `.then` callback another |
| CollectorManagers.ThreeFiring | src/collectors/CollectorManager.ts:28-52 | with the `.then` callback, that firing leaves only the third collector listed; only the first changed state |

## Left out

- Client.ts is not part of this model: connecting, the default argument
  parsers, the logger, `resolvePrefix` and the `bot.on` emitter. The prefixes,
  parsers, categories, owner and commands are the parameter `Env`.
- `registerDirectory`, `iterateImport`, the file watcher and `require`
  depend on the filesystem and module loading. The hot reload is modelled from
  the point where the new instance exists (`Reload`).
- Parsers, requirement functions, collector filters and custom `run`
  bodies are abstract functions given as parameters. In the model a parser, a
  requirement function and a filter never throw and never return a Promise;
  their only effects are the values they return. In the source a `parse` that
  rejects (src/util.ts:54, src/util.ts:68), a `requirements` that throws
  (src/Command.ts:105) or a `filter` that throws (src/collectors/Collector.ts:33)
  aborts `exec` or the handler loop; the model does not express that. A custom
  `run` may complete abruptly, and its messages are the ones it returns.
- `createEmbed` is opaque: the model sends `CommandEmbed(label)`, and the
  embed's contents are not modelled. As written, src/Command.ts:197 indexes the
  result of `resolvePrefix` without awaiting it. The client makes that result a
  Promise, so `[0]` is `undefined` and `.replace` throws a TypeError: in the
  source, `help <known name>` rejects and sends nothing. The model follows the
  evident intent instead. `HelpSpec` sends the embed and completes normally
  whenever there is a token (its ensures `|args| > 0 ==> r.completion.Normal?`).
- `toUpperCase` folds only the ASCII letters.
- Numbers are integers: NaN, fractions and `Math.min` on them are not
  modelled.
- An options key set to `undefined` is not told apart from an absent one.
- The array a limit-above-1 collector resolves with is a snapshot: later
  pushes into the same array object are not seen through the promise.
- EventEmitter listeners are reduced to the log of emitted events. What a
  listener does when "received" or "end" fires is not modelled.
- Timers and the microtask queue are explicit steps. Interleavings other
  than "handler, then the callbacks it queued" are not modelled.
- CollectorManagers.CollectorManager.Register: requires a collector that was
  never registered. Registering the same object twice is not modelled.
- Collectors.Collector.Timeout: requires the timer to be armed. A timer is
  only scheduled by `run` with a non-zero timeout.
- Commands.Command.GetUsage: requires a finite parent chain, which every tree
  built by the constructor has. A cyclic parent chain, on which the source loops
  forever, is not modelled.
- Commands.Command.constructor: requires its sub-commands to be well-formed
  trees. It does not model a command shared by two parents.
