/** The decorators of filament/slash_commands/decorators.py: `slash_command`
    builds a `_SlashCommand` from a coroutine function, `with_option` and
    `with_checks` add to a command and hand the same command back. */
module SlashDecorators {

  import opened Wrappers
  import opened Text
  import opened Python
  import opened SlashCommands

  /** A decorated coroutine function, by its `__name__`. */
  datatype Function = Function(name: string)

  /** `(name or func.__name__).lower()`: the explicit name when one is given
      and not empty, otherwise the function's name, lower-cased. */
  function CommandName(name: Option<string>, funcName: string): (r: string)
    ensures name.Some? && name.value != [] ==> r == Lower(name.value)
    ensures name.None? || name.value == [] ==> r == Lower(funcName)
    ensures forall i :: 0 <= i < |r| ==> !('A' <= r[i] <= 'Z')
  {
    var chosen := if name.Some? && name.value != [] then name.value else funcName;
    LowerIsLowerCase(chosen);
    Lower(chosen)
  }

  /** A name that went through `CommandName` comes out of it unchanged: the
      name of the first decorated function wins over any later function. */
  lemma CommandNameSticks(name: Option<string>, funcName: string, laterFuncName: string)
    requires funcName != []
    ensures CommandName(Some(CommandName(name, funcName)), laterFuncName) == CommandName(name, funcName)
  {
    var chosen := if name.Some? && name.value != [] then name.value else funcName;
    LowerIsLowerCase(chosen);
  }

  /** `guilds if guilds is not None else []`. */
  function CommandGuilds(guilds: Option<seq<int>>): (r: seq<int>)
    ensures guilds.Some? ==> r == guilds.value
    ensures guilds.None? ==> r == []
  {
    match guilds
    case None => []
    case Some(g) => g
  }

  /** The `decorate` closure `slash_command` returns, as written: `name` and
      `guilds` are `nonlocal` cells that every call rebinds to the values it
      computed, so a decorator used twice names the second command after the
      first function. */
  class SlashCommandDecorator {
    const description: string
    var name: Option<string>
    var guilds: Option<seq<int>>

    /** `slash_command(description=..., name=..., guilds=...)`. */
    constructor (description: string, name: Option<string>, guilds: Option<seq<int>>)
      ensures this.description == description && this.name == name && this.guilds == guilds
    {
      this.description := description;
      this.name := name;
      this.guilds := guilds;
    }

    method Decorate(func: Function) returns (cmd: SlashCommand)
      modifies this
      ensures fresh(cmd)
      ensures cmd.name == CommandName(old(name), func.name)
      ensures cmd.description == description
      ensures cmd.enabledGuilds == CommandGuilds(old(guilds))
      ensures cmd.callback == func.name
      ensures cmd.options == [] && cmd.checks == [] && cmd.defaults == map[]
      ensures name == Some(cmd.name) && guilds == Some(cmd.enabledGuilds)
    {
      name := Some(CommandName(name, func.name));
      guilds := Some(CommandGuilds(guilds));
      cmd := new SlashCommand(name.value, description, guilds.value, func.name);
    }
  }

  /** One `slash_command(description="d")` decorator applied to `foo` and
      then to `bar`: both commands are called "foo". */
  method ReusedDecoratorRepeatsFirstName() returns (first: SlashCommand, second: SlashCommand)
    ensures first.name == "foo" && second.name == "foo"
  {
    var d := new SlashCommandDecorator("d", None, None);
    first := d.Decorate(Function("foo"));
    assert Lower("foo") == "foo";
    second := d.Decorate(Function("bar"));
  }

  /** The decorator as intended: every call computes the name and guilds
      from the arguments of `slash_command` and the function it decorates,
      and keeps no state between calls. */
  class FixedSlashCommandDecorator {
    const description: string
    const name: Option<string>
    const guilds: Option<seq<int>>

    constructor (description: string, name: Option<string>, guilds: Option<seq<int>>)
      ensures this.description == description && this.name == name && this.guilds == guilds
    {
      this.description := description;
      this.name := name;
      this.guilds := guilds;
    }

    method Decorate(func: Function) returns (cmd: SlashCommand)
      ensures fresh(cmd)
      ensures cmd.name == CommandName(name, func.name)
      ensures cmd.description == description
      ensures cmd.enabledGuilds == CommandGuilds(guilds)
      ensures cmd.callback == func.name
      ensures cmd.options == [] && cmd.checks == [] && cmd.defaults == map[]
    {
      cmd := new SlashCommand(CommandName(name, func.name), description, CommandGuilds(guilds), func.name);
    }
  }

  /** The same scenario with the intended decorator: "foo" and then "bar". */
  method ReusedFixedDecoratorNamesEachCommand() returns (first: SlashCommand, second: SlashCommand)
    ensures first.name == "foo" && second.name == "bar"
  {
    var d := new FixedSlashCommandDecorator("d", None, None);
    first := d.Decorate(Function("foo"));
    second := d.Decorate(Function("bar"));
    assert Lower("foo") == "foo" && Lower("bar") == "bar";
  }

  /** `with_checks(check1, *checks)`: each check is added in order and the
      command itself is returned. */
  method WithChecks(cmd: SlashCommand, check1: CheckArg, checks: seq<CheckArg>) returns (r: SlashCommand)
    modifies cmd
    ensures r == cmd
    ensures cmd.checks == old(cmd.checks) + AsChecks([check1] + checks)
    ensures cmd.options == old(cmd.options) && cmd.defaults == old(cmd.defaults)
  {
    var all := [check1] + checks;
    var i := 0;
    while i < |all|
      invariant 0 <= i <= |all|
      invariant cmd.checks == old(cmd.checks) + AsChecks(all[..i])
      invariant cmd.options == old(cmd.options) && cmd.defaults == old(cmd.defaults)
    {
      cmd.AddCheck(all[i]);
      assert AsChecks(all[..i + 1]) == AsChecks(all[..i]) + [AsCheck(all[i])];
      i := i + 1;
    }
    assert all[..i] == all;
    r := cmd;
  }

  /** `**({"choices": choices} if choices else {})`: no `choices` argument and
      an empty list of choices both leave the option without choices. */
  function OptionChoices(choices: Option<seq<Choice>>): (r: Option<seq<Choice>>)
    ensures r.None? <==> (choices.None? || choices.value == [])
    ensures r.Some? ==> r == choices
  {
    if choices.None? || choices.value == [] then None else choices
  }

  /** `with_option(...)` applied to a command: one option is appended, its
      default stored under its name, and the command itself returned. */
  method WithOption(cmd: SlashCommand, optionType: string, name: string, description: string,
                    default: PyValue, choices: Option<seq<Choice>>, required: bool)
    returns (r: SlashCommand)
    modifies cmd
    ensures r == cmd
    ensures cmd.options == old(cmd.options) + [CommandOption(name, description, optionType, required, OptionChoices(choices))]
    ensures cmd.defaults == old(cmd.defaults)[name := default]
    ensures cmd.checks == old(cmd.checks)
  {
    var option := CommandOption(name, description, optionType, required, OptionChoices(choices));
    cmd.AddOption(option, default);
    r := cmd;
  }
}
