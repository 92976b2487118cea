# filament, modelled in Dafny

Filament is a set of add-ons for the hikari-lightbulb Discord bot framework.
This project models five of its pieces and proves what they promise:

- **The superuser `exec` command** (`filament/exts/superuser.py`).
  - It reads a fenced code block with `CODEBLOCK_REGEX` (module `CodeBlock`).
  - It maps the block's tag to a language through `LANGUAGES`, or picks a language for unfenced input from the alias the command was invoked with.
  - It sends Python to an in-process session executor. That executor rewrites a leading expression into a `return` and wraps the code in `async def aexec(ctx, bot):` with `textwrap.indent` (module `TextWrap`).
  - It sends every other language to a shell executor. That executor short-circuits when the program cannot be found.
  - It lays the captured output out as paginator lines (module `Superuser`).
- **`_SlashCommand`** (`filament/slash_commands/commands.py`). This is a mutable class holding an option list, a check list and a default per option name. It hands its options out required-first with a stable sort (module `SlashCommands`).
- **The slash-command decorators** (`filament/slash_commands/decorators.py`). These are `slash_command`, `with_checks` and `with_option` (module `SlashDecorators`).
- **The class-based command helpers** (`filament/commands/impl.py`). These are `opt`, the class-level subcommand registry behind `CommandLike.child`, `_find_options`, and the argument assembly in `_as_lightbulb_commandlike` (module `CommandsImpl`).
- **`parse_requirements_file`** (`setup.py`), applied to the file's text (module `Setup`).

Shared modules hold the Python semantics the core relies on:

- `Wrappers` holds `Option` and `Result`.
- `Python` holds the values stored in keyword-argument dictionaries and their truthiness.
- `Text` holds `str.isspace` over CPython's whitespace set, `strip`, ASCII `lower`, `str(int)`, one-character `replace`, and `split`/`join` on one character.
- `TextWrap` holds `str.splitlines(True)` and `textwrap.indent`.

Some of the core reaches into foreign code. The model takes those pieces as parameters:

- the verdict of `ast.parse` on the code (`ParseVerdict`);
- the interpreter running the wrapped source (`interpret`);
- `shutil.which` (`which`) and process spawning (`spawn`);
- the measured time (`elapsed`), `sys.version`, and the `%.2f` rendering of milliseconds (`formatMs`);
- the `SHELL` environment lookup (`shell`).

On these points the model follows the code exactly:

- `execute` raises in two ways while resolving its argument. `LANGUAGES[tag]` raises `KeyError` for an unknown tag. `match.group` raises `AttributeError` when input that starts with a fence does not match the pattern. `ResolveCode` returns `Failure(UnknownLanguage(tag))` and `Failure(NoCodeBlock)` for these, and `Execute` passes them on as `Failure(Unresolved(...))`.
- The `lang` group is the longest run of `[a-zA-Z0-9]`, and exactly one whitespace character must follow it. Only that one character is dropped before the body; further leading whitespace stays in it. Whitespace before the closing fence is dropped.
- `execute_in_shell` does not catch an exception from spawning the process, from encoding the code as UTF-8, or from decoding the output. Such an exception escapes `execute`. The model's `spawn` returns `Failure(exception class)` for it, and `Execute` returns `Failure(ShellRaised(...))`.

## Model

| member | source | states |
|---|---|---|
| CodeBlock.AlnumEnd | filament/exts/superuser.py:37 | the `lang` group: the end of the longest run of `[a-zA-Z0-9]` characters from a position |
| CodeBlock.FirstFence | filament/exts/superuser.py:37 | the lazy `code` group stops at the first "```" at or after a position, and at no earlier one |
| CodeBlock.MatchCodeBlock | filament/exts/superuser.py:36-38 | `CODEBLOCK_REGEX.match`, anchored at the start: no match without an opening fence; the groups are characterised by MatchIsDecomposition and MatchIsShortestDecomposition |
| CodeBlock.MatchIsDecomposition | filament/exts/superuser.py:36-38 | every match is a parse of the text by the pattern: fence, alphanumeric tag, one whitespace character, body, whitespace run, fence |
| CodeBlock.MatchIsShortestDecomposition | filament/exts/superuser.py:36-38 | whenever the text parses that way, `re.match` succeeds with the same tag and the shortest body |
| CodeBlock.MatchedBodyShape | filament/exts/superuser.py:37 | the extracted body never contains "```" and never ends in whitespace |
| CodeBlock.MatchFormatted | filament/exts/superuser.py:36-38 | round trip: a block written as fence, alphanumeric tag, newline, body, newline, fence matches with exactly that tag and body, whenever the body holds no "```" and does not end in whitespace |
| CodeBlock.MatchExample | filament/exts/superuser.py:36-38 | the block `Formatted("py", "print(1)")`, that is "```py", "print(1)" and "```" on three lines, gives the tag "py" and the body "print(1)" |
| CodeBlock.NonAlnumTagFails | filament/exts/superuser.py:37 | a tag such as "c++" is not followed by whitespace after its alphanumeric run, so the match fails |
| Superuser.LookupLanguage | filament/exts/superuser.py:39-48 | "", "py", "python", "python3" and "py3" give "python"; "shell", "sh" and "bash" give the configured shell; any other tag fails |
| Superuser.ResolveCode | filament/exts/superuser.py:139-146 | the language and code `execute` runs, or the error it raises; its cases are UnfencedInputPassesThrough and FencedInputResolution |
| Superuser.UnfencedInputPassesThrough | filament/exts/superuser.py:142-146 | input without an opening fence is passed on unchanged; its language is the shell exactly when the alias is "shell" or "sh", and "python" otherwise |
| Superuser.FencedInputResolution | filament/exts/superuser.py:139-141 | fenced input ignores the alias; it fails when the pattern does not match or the tag is unknown, and otherwise yields the tag's language and the extracted body |
| Superuser.FencedPythonExample | filament/exts/superuser.py:139-141 | the block `Formatted("py", "print(1)")` resolves to ("python", "print(1)") under any alias |
| Superuser.ExecutorFor | filament/exts/superuser.py:148 | the session executor is chosen exactly for "python"; every other language goes to the shell executor |
| Superuser.RewriteForReturn | filament/exts/superuser.py:62-70 | defined as "return " + the stripped code when the first statement is an expression, the code otherwise; its effect on the executed source is SessionSourceBody |
| Superuser.WrapSource | filament/exts/superuser.py:73 | defined as the `aexec` header followed by the indented code; WrapRoundTrip inverts it |
| Superuser.SessionSource | filament/exts/superuser.py:62-73 | defined as the wrapped, possibly rewritten code; its shape is SessionSourceBody |
| Superuser.WrapRoundTrip | filament/exts/superuser.py:73 | dropping the `aexec` header and unindenting the wrapped source gives back the code |
| Superuser.SessionSourceBody | filament/exts/superuser.py:62-73 | the executed source is the `aexec` header plus the body; the body is "return " + stripped code when the first statement is an expression, and the unchanged code otherwise, including on a parse failure; its lines are the body's lines, each non-blank one indented |
| Superuser.PythonEngineIsOneLine | filament/exts/superuser.py:93 | the engine string starts with "Python " and holds no newline |
| Superuser.SessionOutcome | filament/exts/superuser.py:51-94 | the tuple `execute_in_session` returns; its engine is the one-line `sys.version` and its time the measured one |
| Superuser.ExecuteInSession | filament/exts/superuser.py:51-94 | equals `SessionOutcome` for the code: the result is the returned value, or the awaited value after the "Returned awaitable" note on stderr, or the exception's class with its traceback on stderr; the captured streams come from both runs; the engine is the one-line `sys.version` |
| Superuser.ExecuteInShell | filament/exts/superuser.py:97-119 | equals `ShellOutcome`: an unresolvable program gives ("", program + " not found.", 127, 0.0, "") without spawning; an exception from spawning, encoding or decoding escapes; otherwise the process output, the stringified exit code, and the resolved path as the engine |
| Superuser.ShellOutcome | filament/exts/superuser.py:97-119 | the tuple `execute_in_shell` returns, or the exception escaping it; the engine is empty exactly when the program is not found, and an escaping exception is the one spawning, encoding or decoding raised |
| Superuser.OutputLines | filament/exts/superuser.py:126-134 | defined as the lines `_paginate_output` adds; its shape is OutputLinesShape and OutputLinesRecoverStreams |
| Superuser.OutputLinesShape | filament/exts/superuser.py:126-134 | the header "---- prog ----", a labelled stdout section exactly when stdout is non-empty, then the same for stderr, then a line starting "+ Returned result": 2 to 6 lines |
| Superuser.OutputLinesRecoverStreams | filament/exts/superuser.py:126-134 | both streams can be read back from the lines, so the layout loses nothing |
| Superuser.PaginateOutput | filament/exts/superuser.py:126-134 | the paginator receives exactly the layout's lines, appended in order after the lines it already held |
| Superuser.Paginator.AddLine | filament/exts/superuser.py:127 | `add_line` appends exactly one line to the paginator |
| Superuser.RunResolved | filament/exts/superuser.py:148-149 | the session outcome for the parsed code when the language is "python", and the shell outcome for the language as the program otherwise |
| Superuser.SessionRunIsLaidOut | filament/exts/superuser.py:148-152 | Python code always gives 2 to 6 lines headed by the interpreter's engine |
| Superuser.ShellNotFoundIsLaidOut | filament/exts/superuser.py:98-100 | a shell program that cannot be found gives exactly the empty header, the stderr section with "<program> not found." and the trailer "+ Returned 127 in approx <zero milliseconds rendered>ms" (the int 127 printed as "127") |
| Superuser.NotFoundOutcome | filament/exts/superuser.py:98-100 | when `which` finds no program, the run succeeds with empty stdout, stderr "<program> not found.", exit status 127, zero elapsed time and no engine name |
| Superuser.Execute | filament/exts/superuser.py:138-152 | a resolution error, or an exception escaping the shell executor, propagates; otherwise the lines are exactly `OutputLines` of the outcome `RunResolved` gives: the executor `ExecutorFor` picks, run on the resolved code (parsed, on the session path), its streams, result, elapsed time and engine laid out |
| TextWrap.ConcatSplitLines | filament/exts/superuser.py:73 | `splitlines(True)` loses nothing: joining the lines gives the text back |
| TextWrap.SplitLines | filament/exts/superuser.py:73 | `splitlines(True)`: no line is empty; ConcatSplitLines, SplitLinesAtBoundaries and SplitLinesUnique state where it cuts |
| TextWrap.FirstLineShape | filament/exts/superuser.py:73 | the first line runs to the first boundary character (taking a `\r\n` pair whole), and no boundary sits inside it |
| TextWrap.SplitLinesAtBoundaries | filament/exts/superuser.py:73 | every line but the last ends in a boundary character (`\n`, `\r`, `\x0b`, `\x0c`, `\x1c`-`\x1e`, `\x85`, `\u2028`, `\u2029`); no line holds a boundary before its end except the `\r` of a final `\r\n`; a line ending in `\r` is never followed by one starting with `\n` |
| TextWrap.SplitLinesUnique | filament/exts/superuser.py:73 | any cut of the text into non-empty lines that join back to it and break at the boundaries as above is exactly `splitlines(True)` |
| TextWrap.Indent | filament/exts/superuser.py:73 | defined as `textwrap.indent(code, "    ")` line by line; SplitLinesOfIndent and IndentRoundTrip state what it does |
| TextWrap.SplitLinesOfIndent | filament/exts/superuser.py:73 | `textwrap.indent` neither merges nor splits lines; each non-blank line gains four spaces, and blank lines are kept as they are |
| TextWrap.IndentRoundTrip | filament/exts/superuser.py:73 | removing the four-space prefix from the indented text's non-blank lines gives the original text |
| Text.Strip | filament/exts/superuser.py:68 | `strip()` is the input with a whitespace run removed from each end: the result occurs in the input between two whitespace runs, is empty exactly for all-whitespace text, and otherwise neither starts nor ends with whitespace |
| Text.StripStartsAt | setup.py:14-15 | the first non-whitespace character of a line is the first character of its `strip()` |
| Text.StripIdempotent | setup.py:14 | stripping twice is stripping once |
| Text.Split | setup.py:14 | `split("\n")` gives at least one piece, no piece holds the separator, and joining the pieces gives the text |
| Text.SplitJoin | setup.py:14-15 | splitting a join of separator-free parts gives the parts back |
| Text.LowerIsLowerCase | filament/slash_commands/decorators.py:50 | lower-casing leaves no ASCII upper-case letter (A-Z) and is idempotent |
| Text.IntToString | filament/exts/superuser.py:119 | `str(n)` is a minus sign exactly for negative `n`, followed by decimal digits without a leading zero whose value is the magnitude of `n`; zero is "0" |
| Text.NatToString | filament/exts/superuser.py:119 | the decimal digits of a natural number denote it, with no leading zero: zero is the single digit "0" |
| Text.ReplaceChar | filament/exts/superuser.py:93 | `replace` of one character: every occurrence becomes the replacement, every other character is kept, the length is unchanged |
| SlashCommands.SlashCommand.constructor | filament/slash_commands/commands.py:25-61 | the name, description, guilds and callback are those given; options, checks and defaults start empty |
| SlashCommands.SlashCommand.AddCheck | filament/slash_commands/commands.py:67-70 | exactly one check, wrapped when it is a bare callable, is appended; options and defaults are unchanged |
| SlashCommands.SlashCommand.AddOption | filament/slash_commands/commands.py:72-74 | exactly one option is appended and the default is stored under its name; every other entry and the checks are unchanged |
| SlashCommands.AddOptionsWithSameName | filament/slash_commands/commands.py:73-74 | two options with one name are both kept, in order, and the stored default is the later one |
| SlashCommands.SlashCommand.GetOptions | filament/slash_commands/commands.py:76-77 | a permutation of the stored options with every required option before every optional one, keeping each group's insertion order; the stored list is only read |
| SlashCommands.RequiredFirstProperties | filament/slash_commands/commands.py:77 | the required-first order is a permutation, puts required before optional, and keeps each group's order |
| SlashCommands.StableSortIsRequiredFirst | filament/slash_commands/commands.py:77 | the required-first order equals a stable insertion sort on `is_required`, descending, as `sorted(..., reverse=True)` performs it |
| SlashDecorators.CommandName | filament/slash_commands/decorators.py:50 | the lower-cased explicit name, or the lower-cased function name when no name or an empty one is given; the result has no upper-case letter |
| SlashDecorators.CommandNameSticks | filament/slash_commands/decorators.py:47-50 | a name computed once is kept when it is fed back as the explicit name, whatever function comes next |
| SlashDecorators.CommandGuilds | filament/slash_commands/decorators.py:51 | `[]` when no guilds are given; given guilds pass through unchanged |
| SlashDecorators.SlashCommandDecorator.constructor | filament/slash_commands/decorators.py:29 | the closure's cells start as the `slash_command` arguments |
| SlashDecorators.SlashCommandDecorator.Decorate | filament/slash_commands/decorators.py:47-53 | a new command with the computed name and guilds, the description and the function, and empty option, check and default stores; the cells are rebound to the computed name and guilds |
| SlashDecorators.ReusedDecoratorRepeatsFirstName | filament/slash_commands/decorators.py:47-53 | one decorator applied to `foo` and then to `bar` names both commands "foo" |
| SlashDecorators.FixedSlashCommandDecorator.Decorate | filament/slash_commands/decorators.py:47-53 | the intended decorator: each command takes its name from the `slash_command` arguments and its own function |
| SlashDecorators.ReusedFixedDecoratorNamesEachCommand | filament/slash_commands/decorators.py:47-53 | with the intended decorator, `foo` and `bar` give commands "foo" and "bar" |
| SlashDecorators.WithChecks | filament/slash_commands/decorators.py:109-130 | check1 and then each further check are appended in argument order; options and defaults are unchanged; the same command is returned |
| SlashDecorators.OptionChoices | filament/slash_commands/decorators.py:91-99 | no `choices` field when `choices` is None or converts to an empty list; the converted list otherwise |
| SlashDecorators.WithOption | filament/slash_commands/decorators.py:86-104 | exactly one option with the given name, description, type, required flag and choices is appended; `default` is recorded under the name; the same command is returned |
| CommandsImpl.Opt | filament/commands/impl.py:33-49 | without `required`, the option is required exactly when no default was passed or the default is UNDEFINED; a non-required option without a default gets None; an explicit `required` or `default`, and every other keyword, is kept as passed |
| CommandsImpl.CommandLikeRegistry.constructor | filament/commands/impl.py:62-67 | the subcommand registry and the three handler registries start empty |
| CommandsImpl.CommandLikeRegistry.SubcommandsOf | filament/commands/impl.py:102 | `_subcommands.get(cls, [])`: the registered list, or the empty list |
| CommandsImpl.CommandLikeRegistry.Append | filament/commands/impl.py:224 | one class is appended to the calling class's list; every other class's list and the handler registries are unchanged |
| CommandsImpl.CommandLikeRegistry.Child | filament/commands/impl.py:214-231 | `child(other)` appends `other` and returns it; `child()` returns the decorator and registers nothing; other classes' lists are unchanged |
| CommandsImpl.CommandLikeRegistry.ApplyChildDecorator | filament/commands/impl.py:227-229 | the decorator appends its argument to the parent's list and returns it unchanged |
| CommandsImpl.RegisterTwoChildren | filament/commands/impl.py:224-228 | registrations through either form keep their order |
| CommandsImpl.Lookup | filament/commands/impl.py:99 | a missing registry entry gives None, and a present one gives its handler |
| CommandsImpl.NormaliseGuilds | filament/commands/impl.py:101 | an int becomes the singleton list; any other value is passed through |
| CommandsImpl.Assign | filament/commands/impl.py:81 | `options[obj.name] = obj` on an insertion-ordered dict: keys stay distinct, a present key keeps its place and takes the new value, a new key goes last, and every other entry stays where it was |
| CommandsImpl.ScanOptions | filament/commands/impl.py:75-82 | the dict of options found in a scan prefix, with distinct keys; ScanOptionsKeys, ScanOptionsLastWins and ScanOptionsOrder state what it holds and in which order |
| CommandsImpl.ScanOptionsKeys | filament/commands/impl.py:75-82 | the discovered options are keyed by exactly the names the scanned option attributes carry |
| CommandsImpl.ScanOptionsLastWins | filament/commands/impl.py:75-82 | each entry holds the option of its name's last declaration in scan order |
| CommandsImpl.ScanOptionsFirstSeen | filament/commands/impl.py:75-82 | each entry's name is first declared inside the scanned prefix |
| CommandsImpl.ScanOptionsOrder | filament/commands/impl.py:75-82 | the dict iterates in the order of its names' first declarations |
| CommandsImpl.RedeclaredOptionKeepsItsPlace | filament/commands/impl.py:75-82 | a redeclared option stays at its first place with its last value, and swapping two declarations swaps the dict's order |
| CommandsImpl.FindOptions | filament/commands/impl.py:75-82 | the loop keeps only option attributes, keyed by exactly the declared names; each name sits where it was first declared and holds the option of its last declaration |
| CommandsImpl.AsLightbulbCommandLike | filament/commands/impl.py:84-111 | the arguments handed to lightbulb: the discovered options in their dict order, registry entries or None when missing, normalised guilds, subcommands in registration order, and the other properties unchanged |
| Setup.TwoPassesAreOnePass | setup.py:14-15 | stripping and dropping blank lines, then dropping comments, keeps exactly the lines whose stripped form is non-empty and does not start with "#", in their stripped form |
| Setup.RequirementsAreEntries | setup.py:14-15 | no requirement is empty or starts with "#"; each equals its own `strip()` and holds no newline |
| Setup.RequirementsAreSubsequence | setup.py:14-15 | the requirements keep the file's order: they are a subsequence of its stripped lines |
| Setup.RequirementsOfLines | setup.py:14-15 | a first line contributes its stripped form exactly when it is kept, and the rest of the file is parsed on its own |
| Setup.SingleLine | setup.py:14-15 | a one-line file yields that line, stripped, exactly when it is kept |
| Setup.ParseIdempotent | setup.py:14-15 | writing the requirements back one per line and parsing again gives the same requirements |
| Setup.IndentedCommentDropped | setup.py:14-15 | a comment line is not kept however much whitespace precedes its "#", because the line is stripped before the "#" test |
| Setup.InlineHashKept | setup.py:14-15 | a line "requirement # note" is kept whole, the note included, whenever the requirement does not start with "#" or whitespace and the note does not end in whitespace |
| Setup.ParseRequirements | setup.py:12-15 | defined as splitting on "\n", stripping, dropping blank lines, then dropping comments; TwoPassesAreOnePass, RequirementsAreEntries and ParseIdempotent state what it yields |
| Setup.StripAll | setup.py:14 | every line stripped, in order: the reference the requirements are a subsequence of |

## Left out

- Compiling and running Python (`ast.parse`, `exec`, awaiting `aexec`) is foreign. The parser's verdict is an input, and what a run prints, returns or raises is given by `interpret`.
- Process spawning, pipes, `communicate`, UTF-8 encoding and decoding, and `shutil.which` are foreign. They are the parameters `spawn` and `which`. Which of spawning, encoding or decoding raised, and what, is decided by `spawn`; the model does not say when each happens, only that its exception escapes.
- All asyncio sequencing is left out, because the model is sequential.
- Superuser.ExecuteInSession: the measured time is an input. The model does not capture `time.monotonic` or the NaN start value.
- Redirecting stdout and stderr into `StringIO` and printing tracebacks are I/O capture. A run's printed text and traceback are plain strings in the model.
- Superuser.PaginateOutput: the `%.2f` rendering of the elapsed milliseconds is the parameter `formatMs`, because it is floating-point formatting.
- `StringPaginator` page splitting, `StringNavigator`, plugin load and unload, and the `owner_only` check are lightbulb code and not part of this model.
- `SHELL` is read from the environment at import time, so it is the parameter `shell`.
- SlashCommands.SlashCommand.AddCheck: `lightbulb.Check` is foreign. Wrapping is modelled as building a `Check` around the callable.
- `_SlashCommand.__call__`, its bot binding, and `callback` forwarding are framework plumbing.
- SlashDecorators.WithOption: the `required` flag and the option type are inputs. Computing them needs `typing.get_origin`, `in` on a Union alias and `OPTION_TYPE_MAPPING`, which are typing internals and lightbulb code. `_get_choice_objects_from_choices` is also foreign, so `choices` is taken already converted.
- SlashDecorators.WithOption: the `with_option` closure also rebinds `type` and `choices` through `nonlocal`. A second use of one `with_option` decorator is therefore not modelled.
- SlashDecorators.CommandName: `lower()` is modelled on ASCII letters only. Python lower-cases every Unicode letter.
- `hikari.CommandOption` construction is foreign. An option is a record of the fields the core sets.
- CommandsImpl.AsLightbulbCommandLike: `parser` and `cooldown_manager` are left out. The callback wrapper and its `__cmd_types__` attribute appear only as the `implements` sequence. Each subcommand appears as its class; its instance is not built, because `__new__` returns a lightbulb object.
- CommandsImpl.FindOptions: the order of `dir()` and `getattr` reflection is an input sequence of attribute values. The returned dict is its entries in insertion order.
- CommandsImpl.NormaliseGuilds: Python's `bool` is a subclass of `int`, so `guilds = True` would be wrapped too. The model's ids are plain integers.
- The shorthand helpers and `ctx.raw_options` access are thin wrappers over lightbulb, so they are not part of this model. The same goes for the template deployment and mock patching, and for the package `__init__` re-exports.
- Setup: opening and reading the requirements file, the `setup()` call, and `long_description` are packaging I/O. `ParseRequirements` takes the file's text.

## Findings

| source | as written | input that shows it | evidently intended | confidence | as-written member | corrected member |
|---|---|---|---|---|---|---|
| filament/slash_commands/decorators.py:47-53 | `decorate` declares `nonlocal name, guilds` and rebinds `name` to the lower-cased name it computed, so one `slash_command(...)` decorator names every later command after the first function | `d = slash_command(description="d")`, then `d(foo)` and `d(bar)`: both commands are named "foo" | each decorated function gets its own name: "foo", then "bar" | not executed; medium, since the documented use applies each decorator once | SlashDecorators.ReusedDecoratorRepeatsFirstName | SlashDecorators.ReusedFixedDecoratorNamesEachCommand |
