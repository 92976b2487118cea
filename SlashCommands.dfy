/** `_SlashCommand` of filament/slash_commands/commands.py: a slash command
    that stores its options, its checks and a default value per option name,
    and hands its options out required-first. */
module SlashCommands {

  import opened Wrappers
  import opened Python

  /** A `lightbulb.Check`, wrapping the predicate it was built from (named). */
  datatype Check = Check(wrapped: string)

  /** What `add_check` accepts: a check, or a bare callable to be wrapped. */
  datatype CheckArg = CheckObject(check: Check) | BareCallable(name: string)

  /** `check if isinstance(check, lightbulb.Check) else lightbulb.Check(check)`. */
  function AsCheck(c: CheckArg): Check {
    match c
    case CheckObject(k) => k
    case BareCallable(f) => Check(f)
  }

  function AsChecks(cs: seq<CheckArg>): (r: seq<Check>)
    ensures |r| == |cs|
    ensures forall k :: 0 <= k < |cs| ==> r[k] == AsCheck(cs[k])
  {
    seq(|cs|, k requires 0 <= k < |cs| => AsCheck(cs[k]))
  }

  datatype Choice = Choice(name: string, value: PyValue)

  /** `hikari.CommandOption`; `choices` is None when no `choices` argument was given. */
  datatype CommandOption = CommandOption(
    name: string,
    description: string,
    optionType: string,
    isRequired: bool,
    choices: Option<seq<Choice>>)

  class SlashCommand {
    const name: string
    const description: string
    const enabledGuilds: seq<int>
    const callback: string
    var options: seq<CommandOption>
    var checks: seq<Check>
    var defaults: map<string, PyValue>

    /** `_SlashCommand.__init__`; the `name`, `description` and
        `enabled_guilds` properties return these fields unchanged. */
    constructor (name: string, description: string, enabledGuilds: seq<int>, callback: string)
      ensures this.name == name && this.description == description
      ensures this.enabledGuilds == enabledGuilds && this.callback == callback
      ensures options == [] && checks == [] && defaults == map[]
    {
      this.name := name;
      this.description := description;
      this.enabledGuilds := enabledGuilds;
      this.callback := callback;
      options := [];
      checks := [];
      defaults := map[];
    }

    /** `add_check`: one check, wrapped if need be, at the end. */
    method AddCheck(check: CheckArg)
      modifies this
      ensures checks == old(checks) + [AsCheck(check)]
      ensures options == old(options) && defaults == old(defaults)
    {
      checks := checks + [AsCheck(check)];
    }

    /** `add_option`: the option goes at the end of the list, whatever its
        name, and its default replaces any default stored under that name. */
    method AddOption(option: CommandOption, default: PyValue)
      modifies this
      ensures options == old(options) + [option]
      ensures defaults == old(defaults)[option.name := default]
      ensures checks == old(checks)
    {
      options := options + [option];
      defaults := defaults[option.name := default];
    }

    /** `get_options`: `sorted(options, key=is_required, reverse=True)`, a new
        list holding the same options with every required one first and each
        group in insertion order. */
    function GetOptions(): (r: seq<CommandOption>)
      reads this
      ensures multiset(r) == multiset(options)
      ensures forall i, j :: 0 <= i < |r| && 0 <= j < |r| && r[i].isRequired && !r[j].isRequired ==> i < j
      ensures Required(r) == Required(options) && Optional(r) == Optional(options)
    {
      RequiredFirstProperties(options);
      RequiredFirst(options)
    }
  }

  function Required(s: seq<CommandOption>): seq<CommandOption> {
    if s == [] then [] else (if s[0].isRequired then [s[0]] else []) + Required(s[1..])
  }

  function Optional(s: seq<CommandOption>): seq<CommandOption> {
    if s == [] then [] else (if s[0].isRequired then [] else [s[0]]) + Optional(s[1..])
  }

  function RequiredFirst(s: seq<CommandOption>): seq<CommandOption> {
    Required(s) + Optional(s)
  }

  lemma {:induction false} FilterShapes(s: seq<CommandOption>)
    ensures forall k :: 0 <= k < |Required(s)| ==> Required(s)[k].isRequired
    ensures forall k :: 0 <= k < |Optional(s)| ==> !Optional(s)[k].isRequired
  {
    if s != [] {
      FilterShapes(s[1..]);
    }
  }

  lemma {:induction false} FilterMultiset(s: seq<CommandOption>)
    ensures multiset(Required(s)) + multiset(Optional(s)) == multiset(s)
  {
    if s != [] {
      var rest := s[1..];
      FilterMultiset(rest);
      assert multiset(s) == multiset([s[0]]) + multiset(rest) by {
        assert s == [s[0]] + rest;
      }
      if s[0].isRequired {
        assert Required(s) == [s[0]] + Required(rest);
        assert Optional(s) == Optional(rest);
      } else {
        assert Required(s) == Required(rest);
        assert Optional(s) == [s[0]] + Optional(rest);
      }
    }
  }

  lemma {:induction false} FilterConcat(a: seq<CommandOption>, b: seq<CommandOption>)
    ensures Required(a + b) == Required(a) + Required(b)
    ensures Optional(a + b) == Optional(a) + Optional(b)
  {
    if a != [] {
      assert (a + b)[1..] == a[1..] + b;
      FilterConcat(a[1..], b);
    } else {
      assert a + b == b;
    }
  }

  lemma {:induction false} FilterOfFiltered(s: seq<CommandOption>)
    ensures Required(Required(s)) == Required(s) && Optional(Required(s)) == []
    ensures Required(Optional(s)) == [] && Optional(Optional(s)) == Optional(s)
  {
    if s != [] {
      FilterOfFiltered(s[1..]);
      var h := if s[0].isRequired then [s[0]] else [];
      var g := if s[0].isRequired then [] else [s[0]];
      FilterConcat(h, Required(s[1..]));
      FilterConcat(g, Optional(s[1..]));
      assert Required(h) == h && Optional(h) == [];
      assert Required(g) == [] && Optional(g) == g;
    }
  }

  /** The required-first order is a permutation, puts every required option
      before every optional one, and keeps each group's relative order. */
  lemma RequiredFirstProperties(s: seq<CommandOption>)
    ensures multiset(RequiredFirst(s)) == multiset(s)
    ensures var r := RequiredFirst(s);
      forall i, j :: 0 <= i < |r| && 0 <= j < |r| && r[i].isRequired && !r[j].isRequired ==> i < j
    ensures Required(RequiredFirst(s)) == Required(s)
    ensures Optional(RequiredFirst(s)) == Optional(s)
  {
    FilterShapes(s);
    FilterMultiset(s);
    FilterConcat(Required(s), Optional(s));
    FilterOfFiltered(s);
  }

  // Python's `sorted` is a stable sort. A stable insertion sort on the key
  // `is_required`, descending, is the independent reference for `get_options`.

  function Key(o: CommandOption): int {
    if o.isRequired then 1 else 0
  }

  /** Insert `x` before the first element whose key is not greater than its
      own, so that `x` stays ahead of the later elements with an equal key. */
  function InsertStable(x: CommandOption, sorted: seq<CommandOption>): seq<CommandOption> {
    if sorted == [] then [x]
    else if Key(sorted[0]) > Key(x) then [sorted[0]] + InsertStable(x, sorted[1..])
    else [x] + sorted
  }

  function SortByRequiredDescending(s: seq<CommandOption>): seq<CommandOption> {
    if s == [] then [] else InsertStable(s[0], SortByRequiredDescending(s[1..]))
  }

  lemma {:induction false} InsertOptionalAfterRequired(x: CommandOption, req: seq<CommandOption>, opt: seq<CommandOption>)
    requires !x.isRequired
    requires forall k :: 0 <= k < |req| ==> req[k].isRequired
    requires forall k :: 0 <= k < |opt| ==> !opt[k].isRequired
    ensures InsertStable(x, req + opt) == req + [x] + opt
    decreases |req|
  {
    if req == [] {
      assert req + opt == opt;
    } else {
      assert (req + opt)[0] == req[0];
      assert (req + opt)[1..] == req[1..] + opt;
      InsertOptionalAfterRequired(x, req[1..], opt);
    }
  }

  /** `get_options` agrees with a stable sort by `is_required`, descending. */
  lemma {:induction false} StableSortIsRequiredFirst(s: seq<CommandOption>)
    ensures SortByRequiredDescending(s) == RequiredFirst(s)
  {
    if s != [] {
      var x, rest := s[0], s[1..];
      StableSortIsRequiredFirst(rest);
      assert SortByRequiredDescending(s) == InsertStable(x, RequiredFirst(rest));
      assert s == [x] + rest;
      InsertIntoRequiredFirst(x, rest);
    }
  }

  /** Inserting an option into a required-first list is putting it in front
      of the options and taking the required-first order. */
  lemma InsertIntoRequiredFirst(x: CommandOption, rest: seq<CommandOption>)
    ensures InsertStable(x, RequiredFirst(rest)) == RequiredFirst([x] + rest)
  {
    var s := [x] + rest;
    assert s[0] == x && s[1..] == rest;
    if x.isRequired {
      assert Required(s) == [x] + Required(rest);
      assert Optional(s) == Optional(rest);
      InsertRequired(x, Required(rest), Optional(rest));
    } else {
      assert Required(s) == Required(rest);
      assert Optional(s) == [x] + Optional(rest);
      FilterShapes(rest);
      InsertOptionalAfterRequired(x, Required(rest), Optional(rest));
      assert Required(rest) + [x] + Optional(rest) == Required(rest) + ([x] + Optional(rest));
    }
  }

  lemma InsertRequired(x: CommandOption, req: seq<CommandOption>, opt: seq<CommandOption>)
    requires x.isRequired
    ensures InsertStable(x, req + opt) == ([x] + req) + opt
  {
    assert [x] + (req + opt) == ([x] + req) + opt;
  }

  /** Two options with one name: both stay in the list, in order, and the
      default stored under the name is the later one. */
  method AddOptionsWithSameName(cmd: SlashCommand, first: CommandOption, second: CommandOption,
                                firstDefault: PyValue, secondDefault: PyValue)
    requires first.name == second.name
    modifies cmd
    ensures cmd.options == old(cmd.options) + [first, second]
    ensures cmd.defaults == old(cmd.defaults)[first.name := secondDefault]
  {
    cmd.AddOption(first, firstDefault);
    cmd.AddOption(second, secondDefault);
  }
}
