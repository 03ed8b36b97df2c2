/**
 * CommandRegistry.ts: the ordered list of registered root commands. `register`
 * appends a command unless one of its names is already answered to,
 * `unregister` drops the commands with a given label, `resolve` finds the first
 * command that handles a token, and a hot reload swaps a command by
 * unregistering its label and registering the new instance.
 */
module Registry {
  import opened Js
  import opened Util
  import opened Commands

  /** The names a command answers to: its label, then its aliases. */
  function Names(c: Command): (r: seq<string>)
    ensures |r| >= 1 && r[0] == c.mainLabel
    ensures c.options.aliases.Some? ==> r[1..] == c.options.aliases.value
  {
    [c.mainLabel] + (if c.options.aliases.Some? then c.options.aliases.value else [])
  }

  /** `c.handles(t)` is a case-insensitive match against one of the names of `c`. */
  lemma HandlesByName(c: Command, t: string)
    ensures c.Handles(t) <==> exists n <- Names(c) :: EqualsCaseInsensitive(t, n)
  {
    var names := Names(c);
    if c.options.aliases.Some? {
      forall a <- c.options.aliases.value ensures a in names {
        assert a in names[1..];
      }
    }
    forall n <- names | n != c.mainLabel
      ensures c.options.aliases.Some? && n in c.options.aliases.value
    {
      var k :| 0 <= k < |names| && names[k] == n;
      assert k > 0 && names[1..][k - 1] == n;
    }
  }

  /** A name of a command is its label or one of its aliases. */
  lemma AliasOrLabel(c: Command, n: string)
    requires n in Names(c)
    ensures n == c.mainLabel || (c.options.aliases.Some? && n in c.options.aliases.value)
  {
    var names := Names(c);
    var k :| 0 <= k < |names| && names[k] == n;
    if k > 0 {
      assert names[1..][k - 1] == n;
    }
  }

  /** No name of `a` equals a name of `b`, ignoring case. */
  predicate Apart(a: Command, b: Command) {
    forall n <- Names(a), m <- Names(b) :: !EqualsCaseInsensitive(n, m)
  }

  /** The registry invariant: two different entries never share a name, ignoring case. */
  predicate NamesUnique(cs: seq<Command>) {
    forall i, j :: 0 <= i < j < |cs| ==> Apart(cs[i], cs[j])
  }

  /** Some registered command handles the new label: the first check of `register`. */
  predicate LabelTaken(cs: seq<Command>, instance: Command) {
    exists c <- cs :: c.Handles(instance.mainLabel)
  }

  /** `c` handles one of the aliases of `instance`. */
  predicate HandlesAlias(c: Command, instance: Command) {
    instance.options.aliases.Some? && exists a <- instance.options.aliases.value :: c.Handles(a)
  }

  /** The index of the first registered command that handles an alias of `instance` (the second check). */
  function AliasClash(cs: seq<Command>, instance: Command, i: nat): (r: Option<nat>)
    requires i <= |cs|
    ensures r.Some? ==> i <= r.value < |cs| && HandlesAlias(cs[r.value], instance)
    ensures r.Some? ==> forall j :: i <= j < r.value ==> !HandlesAlias(cs[j], instance)
    ensures r.None? ==> forall j :: i <= j < |cs| ==> !HandlesAlias(cs[j], instance)
    decreases |cs| - i
  {
    if i == |cs| then None
    else if HandlesAlias(cs[i], instance) then Some(i)
    else AliasClash(cs, instance, i + 1)
  }

  function DuplicateLabelText(name: string): string {
    "Duplicate alias/label: " + name
  }

  function DuplicateAliasText(name: string, other: string): string {
    "Command \"" + name + "\" has duplicate aliases/labels with \"" + other + "\"!"
  }

  /** What `register` does to the list `cs`: the list it leaves, or the error it throws. */
  function RegisterSpec(cs: seq<Command>, instance: Command): (r: Completion<seq<Command>>)
    ensures r.Normal? ==> r.value == cs + [instance]
    ensures r.Normal? ==> forall c <- cs :: !c.Handles(instance.mainLabel)
    ensures r.Abrupt? ==> r.error.TypeError?
  {
    if LabelTaken(cs, instance) then Abrupt(TypeError(DuplicateLabelText(instance.mainLabel)))
    else match AliasClash(cs, instance, 0)
      case Some(k) => Abrupt(TypeError(DuplicateAliasText(instance.mainLabel, cs[k].mainLabel)))
      case None => Normal(cs + [instance])
  }

  /** `commands.filter(c => !equalsCaseInsensitive(label, c.label))`. */
  function Without(cs: seq<Command>, name: string): (r: seq<Command>)
    ensures |r| <= |cs|
    ensures forall c <- cs :: c in r <==> !EqualsCaseInsensitive(name, c.mainLabel)
    ensures forall c <- r :: c in cs && !EqualsCaseInsensitive(name, c.mainLabel)
  {
    if cs == [] then []
    else
      var rest := Without(cs[1..], name);
      assert forall c <- cs :: c == cs[0] || c in cs[1..];
      (if EqualsCaseInsensitive(name, cs[0].mainLabel) then [] else [cs[0]]) + rest
  }

  class CommandRegistry {
    var commands: seq<Command>

    constructor ()
      ensures commands == []
    {
      commands := [];
    }

    /** `register(instance)`: appends, or throws `TypeError` and leaves the list alone. */
    method Register(instance: Command) returns (r: Completion<()>)
      modifies this
      ensures match RegisterSpec(old(commands), instance)
        case Normal(cs) => r == Normal(()) && commands == cs
        case Abrupt(e) => r == Abrupt(e) && commands == old(commands)
    {
      if exists c <- commands :: c.Handles(instance.mainLabel) {
        return Abrupt(TypeError(DuplicateLabelText(instance.mainLabel)));
      }
      var dupeAlias := AliasClash(commands, instance, 0);
      if dupeAlias.Some? {
        return Abrupt(TypeError(DuplicateAliasText(instance.mainLabel, commands[dupeAlias.value].mainLabel)));
      }
      commands := commands + [instance];
      return Normal(());
    }

    /** `unregister(label)`: drops every command whose label (not alias) matches. */
    method Unregister(name: string)
      modifies this
      ensures commands == Without(old(commands), name)
    {
      commands := Without(commands, name);
    }

    /** `unregisterAll()`. */
    method UnregisterAll()
      modifies this
      ensures commands == []
    {
      commands := [];
    }

    /** `resolve(t)`: the first registered command, in registration order, that handles `t`. */
    function Resolve(t: string): (r: Option<Command>)
      reads this
      ensures r.None? <==> forall c <- commands :: !c.Handles(t)
      ensures r.Some? ==> exists i :: 0 <= i < |commands| && commands[i] == r.value && r.value.Handles(t)
                                      && forall j :: 0 <= j < i ==> !commands[j].Handles(t)
    {
      match FindIndex(commands, t)
      case None => None
      case Some(i) => Some(commands[i])
    }

    /**
     * The hot-reload swap of `registerDirectory`: unregister the new instance's
     * label, then register the instance. A throwing `register` does not put the
     * removed command back.
     */
    method Reload(instance: Command) returns (r: Completion<()>)
      modifies this
      ensures var kept := Without(old(commands), instance.mainLabel);
        match RegisterSpec(kept, instance)
        case Normal(cs) => r == Normal(()) && commands == cs
        case Abrupt(e) => r == Abrupt(e) && commands == kept
      ensures r.Abrupt? ==> forall c <- commands :: !EqualsCaseInsensitive(instance.mainLabel, c.mainLabel)
    {
      Unregister(instance.mainLabel);
      r := Register(instance);
    }
  }

  // ---------------------------------------------------------------------------
  // Properties of the registry

  /**
   * `register` succeeds exactly when no name of the new command equals, ignoring
   * case, a name of a registered one; it then appends at the end, and otherwise
   * throws `TypeError` and changes nothing.
   */
  lemma RegisterSucceedsIffApart(cs: seq<Command>, instance: Command)
    ensures RegisterSpec(cs, instance).Normal? <==> forall c <- cs :: Apart(c, instance)
    ensures RegisterSpec(cs, instance).Normal? ==> RegisterSpec(cs, instance).value == cs + [instance]
    ensures RegisterSpec(cs, instance).Abrupt? ==> RegisterSpec(cs, instance).error.TypeError?
  {
    var ok := !LabelTaken(cs, instance) && AliasClash(cs, instance, 0).None?;
    assert RegisterSpec(cs, instance).Normal? <==> ok;
    if ok {
      forall c <- cs ensures Apart(c, instance) {
        assert !HandlesAlias(c, instance);
        assert !c.Handles(instance.mainLabel);
        forall m <- Names(instance) ensures !c.Handles(m) {
          AliasOrLabel(instance, m);
        }
        forall n <- Names(c), m <- Names(instance) ensures !EqualsCaseInsensitive(n, m) {
          HandlesByName(c, m);
          EqualsCaseInsensitiveIsEquivalence(m, n, n);
        }
      }
    } else {
      if LabelTaken(cs, instance) {
        var c :| c in cs && c.Handles(instance.mainLabel);
        HandlesByName(c, instance.mainLabel);
        var n :| n in Names(c) && EqualsCaseInsensitive(instance.mainLabel, n);
        EqualsCaseInsensitiveIsEquivalence(n, instance.mainLabel, n);
        assert !Apart(c, instance);
      } else {
        var k := AliasClash(cs, instance, 0).value;
        var c := cs[k];
        var a :| a in instance.options.aliases.value && c.Handles(a);
        HandlesByName(c, a);
        var n :| n in Names(c) && EqualsCaseInsensitive(a, n);
        EqualsCaseInsensitiveIsEquivalence(n, a, n);
        assert a in Names(instance)[1..];
        assert !Apart(c, instance);
      }
    }
  }

  /** `Apart` does not depend on the order of its arguments. */
  lemma ApartSymmetric(a: Command, b: Command)
    ensures Apart(a, b) <==> Apart(b, a)
  {
    forall n, m | EqualsCaseInsensitive(n, m) ensures EqualsCaseInsensitive(m, n) {
      EqualsCaseInsensitiveIsEquivalence(n, m, n);
    }
  }

  /** A successful `register` keeps every name unique across the registry. */
  lemma RegisterKeepsNamesUnique(cs: seq<Command>, instance: Command)
    requires NamesUnique(cs) && RegisterSpec(cs, instance).Normal?
    ensures NamesUnique(RegisterSpec(cs, instance).value)
  {
    RegisterSucceedsIffApart(cs, instance);
    var r := cs + [instance];
    forall i, j | 0 <= i < j < |r| ensures Apart(r[i], r[j]) {
      if j == |cs| {
        assert r[i] in cs;
      } else {
        assert r[i] == cs[i] && r[j] == cs[j];
      }
    }
  }

  /** `unregister` keeps the remaining commands in their order: it distributes over concatenation. */
  lemma {:induction false} WithoutAppend(a: seq<Command>, b: seq<Command>, name: string)
    ensures Without(a + b, name) == Without(a, name) + Without(b, name)
  {
    if a != [] {
      assert (a + b)[1..] == a[1..] + b;
      WithoutAppend(a[1..], b, name);
    } else {
      assert a + b == b;
    }
  }

  /** Removing entries keeps the names unique. */
  lemma {:induction false} WithoutKeepsNamesUnique(cs: seq<Command>, name: string)
    requires NamesUnique(cs)
    ensures NamesUnique(Without(cs, name))
  {
    if cs != [] {
      assert NamesUnique(cs[1..]) by {
        forall i, j | 0 <= i < j < |cs[1..]| ensures Apart(cs[1..][i], cs[1..][j]) {
          assert cs[1..][i] == cs[i + 1] && cs[1..][j] == cs[j + 1];
        }
      }
      WithoutKeepsNamesUnique(cs[1..], name);
      var rest := Without(cs[1..], name);
      if !EqualsCaseInsensitive(name, cs[0].mainLabel) {
        var r := [cs[0]] + rest;
        forall i, j | 0 <= i < j < |r| ensures Apart(r[i], r[j]) {
          if i == 0 {
            assert r[j] in rest;
            var k :| 0 <= k < |cs[1..]| && cs[1..][k] == r[j];
            assert Apart(cs[0], cs[k + 1]);
          } else {
            assert r[i] == rest[i - 1] && r[j] == rest[j - 1];
          }
        }
      }
    }
  }

  /** With unique names, two different entries never both handle a token. */
  lemma NotBothHandle(cs: seq<Command>, t: string, i: nat, j: nat)
    requires NamesUnique(cs) && i < j < |cs|
    ensures !(cs[i].Handles(t) && cs[j].Handles(t))
  {
    HandlesByName(cs[i], t);
    HandlesByName(cs[j], t);
    forall n <- Names(cs[i]), m <- Names(cs[j]) ensures !(EqualsCaseInsensitive(t, n) && EqualsCaseInsensitive(t, m)) {
      EqualsCaseInsensitiveIsEquivalence(n, t, m);
      EqualsCaseInsensitiveIsEquivalence(t, n, t);
    }
  }

  /**
   * With unique names, at most one registered command handles a token, so
   * `resolve` finds that one wherever it sits in the list.
   */
  lemma UniqueNamesResolveOne(cs: seq<Command>, t: string, k: nat)
    requires NamesUnique(cs) && k < |cs| && cs[k].Handles(t)
    ensures FindIndex(cs, t) == Some(k)
  {
    forall j | 0 <= j < k ensures !cs[j].Handles(t) {
      NotBothHandle(cs, t, j, k);
    }
  }

  /**
   * A reload that succeeds leaves the new instance last, every command that
   * does not carry its label where it was, and the names still unique. When the
   * label changed, the old entry is among those kept.
   */
  lemma ReloadShape(cs: seq<Command>, instance: Command)
    requires NamesUnique(cs)
    requires RegisterSpec(Without(cs, instance.mainLabel), instance).Normal?
    ensures var r := RegisterSpec(Without(cs, instance.mainLabel), instance).value;
      && r[|r| - 1] == instance
      && NamesUnique(r)
      && forall c <- cs :: !EqualsCaseInsensitive(instance.mainLabel, c.mainLabel) ==> c in r
  {
    WithoutKeepsNamesUnique(cs, instance.mainLabel);
    RegisterKeepsNamesUnique(Without(cs, instance.mainLabel), instance);
    RegisterSucceedsIffApart(Without(cs, instance.mainLabel), instance);
  }
}
