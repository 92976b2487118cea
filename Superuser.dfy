/** The superuser extension of filament/exts/superuser.py: resolving the
    `exec` command's argument to a language and code, dispatching it to the
    in-process session executor or to the shell executor, and laying the
    captured output out as lines for the paginator.

    The foreign pieces are parameters: the Python parser's verdict on the code,
    the interpreter that runs the wrapped source (`interpret`), `shutil.which`
    (`which`), process spawning (`spawn`), the clock (`elapsed`), `sys.version`
    and the `%.2f` rendering of a float (`formatMs`). */
module Superuser {

  import opened Wrappers
  import opened Text
  import TextWrap
  import CodeBlock

  // ---------------------------------------------------------------------------
  // Language selection

  /** `LANGUAGES`, with the `SHELL` environment lookup taken as `shell`. */
  function Languages(shell: string): map<string, string> {
    map[
      "" := "python", "py" := "python", "python" := "python",
      "python3" := "python", "py3" := "python",
      "shell" := shell, "sh" := shell, "bash" := shell
    ]
  }

  const PythonTags: set<string> := {"", "py", "python", "python3", "py3"}
  const ShellTags: set<string> := {"shell", "sh", "bash"}

  /** Why resolving the command's argument raises. */
  datatype ResolveError =
    | NoCodeBlock                    // the regex did not match: `match.group` on None
    | UnknownLanguage(tag: string)   // `LANGUAGES[tag]` raised KeyError

  /** `LANGUAGES[tag]`: the Python tags give "python", the shell tags the
      configured shell, and every other tag raises. */
  function LookupLanguage(tag: string, shell: string): (r: Result<string, ResolveError>)
    ensures tag in PythonTags ==> r == Success("python")
    ensures tag in ShellTags ==> r == Success(shell)
    ensures tag !in PythonTags && tag !in ShellTags ==> r == Failure(UnknownLanguage(tag))
  {
    var table := Languages(shell);
    if tag in table then Success(table[tag]) else Failure(UnknownLanguage(tag))
  }

  datatype ResolvedCode = ResolvedCode(language: string, code: string)

  /** The aliases under which unfenced input is handed to the shell. */
  const ShellAliases: seq<string> := ["shell", "sh"]

  /** The first lines of `SuperUser.execute`: a fenced argument is parsed with
      the regex and its tag looked up; anything else is run as is, in the shell
      when the command was invoked as `shell` or `sh`, and as Python otherwise. */
  function ResolveCode(raw: string, invokedWith: string, shell: string): Result<ResolvedCode, ResolveError> {
    if StartsWith(raw, CodeBlock.Fence) then
      match CodeBlock.MatchCodeBlock(raw)
      case None => Failure(NoCodeBlock)
      case Some((tag, body)) =>
        match LookupLanguage(tag, shell)
        case Failure(e) => Failure(e)
        case Success(language) => Success(ResolvedCode(language, body))
    else
      Success(ResolvedCode(if invokedWith in ShellAliases then shell else "python", raw))
  }

  /** Unfenced input is passed on unchanged; its language is the shell exactly
      when the alias is "shell" or "sh". */
  lemma UnfencedInputPassesThrough(raw: string, invokedWith: string, shell: string)
    requires !StartsWith(raw, "```")
    ensures ResolveCode(raw, invokedWith, shell).Success?
    ensures ResolveCode(raw, invokedWith, shell).value.code == raw
    ensures invokedWith == "shell" || invokedWith == "sh" ==>
      ResolveCode(raw, invokedWith, shell).value.language == shell
    ensures invokedWith != "shell" && invokedWith != "sh" ==>
      ResolveCode(raw, invokedWith, shell).value.language == "python"
  {
  }

  /** Fenced input ignores the alias; it resolves exactly when the regex
      matches with a known tag, and then to the tag's language and the body,
      which holds no fence and does not end in whitespace. */
  lemma FencedInputResolution(raw: string, invokedWith: string, shell: string)
    requires StartsWith(raw, "```")
    ensures ResolveCode(raw, invokedWith, shell) == ResolveCode(raw, "", shell)
    ensures CodeBlock.MatchCodeBlock(raw).None? ==> ResolveCode(raw, invokedWith, shell) == Failure(NoCodeBlock)
    ensures CodeBlock.MatchCodeBlock(raw).Some? ==>
      var (tag, body) := CodeBlock.MatchCodeBlock(raw).value;
      && (tag in PythonTags ==> ResolveCode(raw, invokedWith, shell) == Success(ResolvedCode("python", body)))
      && (tag in ShellTags ==> ResolveCode(raw, invokedWith, shell) == Success(ResolvedCode(shell, body)))
      && (tag !in PythonTags && tag !in ShellTags ==>
            ResolveCode(raw, invokedWith, shell) == Failure(UnknownLanguage(tag)))
    ensures ResolveCode(raw, invokedWith, shell).Success? ==>
      var body := ResolveCode(raw, invokedWith, shell).value.code;
      && (forall i :: !CodeBlock.FenceAt(body, i))
      && (body == [] || !IsSpace(body[|body| - 1]))
  {
    if CodeBlock.MatchCodeBlock(raw).Some? {
      CodeBlock.MatchedBodyShape(raw);
    }
  }

  /** The documented example: a `py` block holding `print(1)`. */
  lemma FencedPythonExample(invokedWith: string, shell: string)
    ensures ResolveCode(CodeBlock.Formatted("py", "print(1)"), invokedWith, shell)
         == Success(ResolvedCode("python", "print(1)"))
  {
    CodeBlock.MatchExample();
  }

  /** Which executor `SuperUser.execute` picks for a resolved language. */
  datatype Executor = SessionExecutor | ShellExecutor

  function ExecutorFor(language: string): (x: Executor)
    ensures x == SessionExecutor <==> language == "python"
  {
    if language == "python" then SessionExecutor else ShellExecutor
  }

  // ---------------------------------------------------------------------------
  // Session executor: the source handed to `exec`

  /** What `ast.parse` makes of the code: a syntax error, or a module whose
      first top-level statement is (or is not) an expression statement. An
      empty module counts as "not an expression". */
  datatype ParseVerdict = SyntaxError | Parsed(firstIsExpression: bool)

  /** Code whose first statement is an expression becomes `return <stripped code>`;
      anything else, including code that does not parse, is left alone. */
  function RewriteForReturn(code: string, verdict: ParseVerdict): string {
    if verdict == Parsed(true) then "return " + Strip(code) else code
  }

  const AexecHeader: string := "async def aexec(ctx, bot):\n"

  /** `f"async def aexec(ctx, bot):\n{textwrap.indent(code, '    ')}"`. */
  function WrapSource(code: string): string {
    AexecHeader + TextWrap.Indent(code)
  }

  /** The inverse of `WrapSource`: drop the header and unindent. */
  function UnwrapSource(source: string): Option<string> {
    if StartsWith(source, AexecHeader) then Some(TextWrap.Unindent(source[|AexecHeader|..])) else None
  }

  lemma {:induction false} WrapRoundTrip(code: string)
    ensures UnwrapSource(WrapSource(code)) == Some(code)
  {
    var w := WrapSource(code);
    assert w[..|AexecHeader|] == AexecHeader;
    assert w[|AexecHeader|..] == TextWrap.Indent(code);
    TextWrap.IndentRoundTrip(code);
  }

  /** The full source the session executor runs for `code`. */
  function SessionSource(code: string, verdict: ParseVerdict): string {
    WrapSource(RewriteForReturn(code, verdict))
  }

  /** The executed function's body is the stripped code behind `return` when
      the code starts with an expression, and the unchanged code otherwise;
      either way its lines are exactly the body's lines, the non-blank ones
      indented by four spaces. */
  lemma SessionSourceBody(code: string, verdict: ParseVerdict)
    ensures StartsWith(SessionSource(code, verdict), AexecHeader)
    ensures verdict == Parsed(true) ==>
      UnwrapSource(SessionSource(code, verdict)) == Some("return " + Strip(code))
    ensures verdict != Parsed(true) ==>
      UnwrapSource(SessionSource(code, verdict)) == Some(code)
    ensures TextWrap.SplitLines(SessionSource(code, verdict)[|AexecHeader|..])
         == TextWrap.IndentLines(TextWrap.SplitLines(RewriteForReturn(code, verdict)))
  {
    var body := RewriteForReturn(code, verdict);
    WrapRoundTrip(body);
    TextWrap.SplitLinesOfIndent(body);
    assert WrapSource(body)[|AexecHeader|..] == TextWrap.Indent(body);
  }

  // ---------------------------------------------------------------------------
  // Executors and their outcome

  /** What running (or awaiting) the user's code did: the text it printed to
      each stream, and whether it returned or raised. */
  datatype Run = Run(out: string, err: string, evaluation: Evaluation)

  datatype Evaluation =
    | Returned(value: PyResult)
    | Raised(exceptionType: string, traceback: string)

  /** A returned object, by its `str()`; an awaitable also says what awaiting
      it does. */
  datatype PyResult =
    | Plain(text: string)
    | Awaitable(text: string, awaited: Run)

  /** The third element of an executor's result tuple. */
  datatype ResultValue =
    | Value(obj: PyResult)          // what `aexec` returned, or what awaiting that gave
    | ExceptionClass(name: string)  // `type(ex)`
    | ExitStatus(code: int)         // the int 127 of the "not found" branch
    | ExitText(text: string)        // `str(process.returncode)`

  /** `f"{result}"`. */
  function Show(r: ResultValue): string {
    match r
    case Value(o) => o.text
    case ExceptionClass(name) => "<class '" + name + "'>"
    case ExitStatus(c) => IntToString(c)
    case ExitText(t) => t
  }

  /** The tuple `(sout, serr, result, exec_time, engine)` both executors return. */
  datatype Outcome = Outcome(stdout: string, stderr: string, result: ResultValue, elapsed: real, engine: string)

  function AwaitNote(text: string): string {
    "Returned awaitable " + text + ". Awaiting it.\n"
  }

  function PythonEngine(version: string): string {
    "Python " + ReplaceChar(version, '\n', ' ')
  }

  /** The engine string is one line: `sys.version`'s newlines become spaces. */
  lemma PythonEngineIsOneLine(version: string)
    ensures StartsWith(PythonEngine(version), "Python ")
    ensures '\n' !in PythonEngine(version)
  {
    var e := PythonEngine(version);
    assert e[..7] == "Python ";
    forall i | 0 <= i < |e|
      ensures e[i] != '\n'
    {
      if i >= 7 {
        assert e[i] == ReplaceChar(version, '\n', ' ')[i - 7];
      }
    }
  }

  /** What `execute_in_session` returns for `code`: the streams the run (and
      the awaiting of a returned awaitable) printed, the returned value or the
      class of the exception raised, with its traceback after the captured
      stderr. */
  function SessionOutcome(code: string, verdict: ParseVerdict, interpret: string -> Run,
                          elapsed: real, version: string): (o: Outcome)
    ensures o.engine == PythonEngine(version) && o.elapsed == elapsed
  {
    var first := interpret(SessionSource(code, verdict));
    var engine := PythonEngine(version);
    match first.evaluation
    case Raised(t, tb) => Outcome(first.out, first.err + tb, ExceptionClass(t), elapsed, engine)
    case Returned(Plain(text)) => Outcome(first.out, first.err, Value(Plain(text)), elapsed, engine)
    case Returned(Awaitable(text, second)) =>
      match second.evaluation
      case Raised(t, tb) =>
        Outcome(first.out + second.out, first.err + AwaitNote(text) + second.err + tb, ExceptionClass(t), elapsed, engine)
      case Returned(w) =>
        Outcome(first.out + second.out, first.err + AwaitNote(text) + second.err, Value(w), elapsed, engine)
  }

  /** `execute_in_session`. Nothing the user's code does escapes: an exception
      while running or while awaiting a returned awaitable becomes its class as
      the result, with the traceback appended to the captured stderr. */
  method ExecuteInSession(program: string, code: string, verdict: ParseVerdict,
                          interpret: string -> Run, elapsed: real, version: string)
    returns (o: Outcome)
    ensures o == SessionOutcome(code, verdict, interpret, elapsed, version)
    ensures o.engine == PythonEngine(version)
    ensures o.elapsed == elapsed
    ensures var first := interpret(SessionSource(code, verdict));
      first.evaluation.Raised? ==>
        && o.result == ExceptionClass(first.evaluation.exceptionType)
        && o.stdout == first.out
        && o.stderr == first.err + first.evaluation.traceback
    ensures var first := interpret(SessionSource(code, verdict));
      first.evaluation.Returned? && first.evaluation.value.Plain? ==>
        o.result == Value(first.evaluation.value) && o.stdout == first.out && o.stderr == first.err
    ensures var first := interpret(SessionSource(code, verdict));
      first.evaluation.Returned? && first.evaluation.value.Awaitable? ==>
        var second := first.evaluation.value.awaited;
        && o.stdout == first.out + second.out
        && o.stderr == first.err + AwaitNote(first.evaluation.value.text) + second.err
             + (if second.evaluation.Raised? then second.evaluation.traceback else "")
        && o.result == (if second.evaluation.Raised? then ExceptionClass(second.evaluation.exceptionType)
                        else Value(second.evaluation.value))
  {
    var sout, serr := "", "";
    var source := RewriteForReturn(code, verdict);
    var func := WrapSource(source);
    assert func == SessionSource(code, verdict);
    var result: ResultValue;
    var run := interpret(func);
    sout, serr := sout + run.out, serr + run.err;
    assert sout == run.out && serr == run.err;
    match run.evaluation {
      case Raised(t, tb) =>
        serr := serr + tb;
        result := ExceptionClass(t);
      case Returned(v) =>
        result := Value(v);
        if v.Awaitable? {
          serr := serr + AwaitNote(v.text);
          var awaited := v.awaited;
          sout, serr := sout + awaited.out, serr + awaited.err;
          match awaited.evaluation {
            case Raised(t, tb) =>
              serr := serr + tb;
              result := ExceptionClass(t);
            case Returned(w) =>
              result := Value(w);
          }
        }
    }
    o := Outcome(sout, serr, result, elapsed, PythonEngine(version));
  }

  /** What the spawned process produced. */
  datatype ProcessRun = ProcessRun(stdout: string, stderr: string, returnCode: int)

  /** What `execute_in_shell` returns, or the class of the exception that
      escapes it: `spawn` stands for starting the process, encoding the code as
      UTF-8 for its stdin and decoding its output, any of which may raise. */
  function ShellOutcome(program: string, code: string, which: string -> Option<string>,
                        spawn: (string, string) -> Result<ProcessRun, string>, elapsed: real)
    : (r: Result<Outcome, string>)
    ensures r.Success? ==> (r.value.engine == [] <==> (which(program).None? || which(program).value == []))
    ensures r.Failure? ==>
      which(program).Some? && which(program).value != [] && spawn(which(program).value, code) == Failure(r.error)
  {
    var path := which(program);
    if path.None? || path.value == [] then
      Success(Outcome("", program + " not found.", ExitStatus(127), 0.0, ""))
    else
      match spawn(path.value, code)
      case Failure(e) => Failure(e)
      case Success(p) => Success(Outcome(p.stdout, p.stderr, ExitText(IntToString(p.returnCode)), elapsed, path.value))
  }

  /** `execute_in_shell`: an unresolvable program (no path, or an empty one)
      short-circuits without spawning; otherwise the process runs with the code
      on its stdin and the result is its stringified exit status. An exception
      raised while spawning, encoding or decoding is not caught. */
  method ExecuteInShell(program: string, code: string, which: string -> Option<string>,
                        spawn: (string, string) -> Result<ProcessRun, string>, elapsed: real)
    returns (o: Result<Outcome, string>)
    ensures o == ShellOutcome(program, code, which, spawn, elapsed)
    ensures var path := which(program);
      path.None? || path.value == [] ==>
        o == Success(Outcome("", program + " not found.", ExitStatus(127), 0.0, ""))
    ensures var path := which(program);
      path.Some? && path.value != [] ==>
        match spawn(path.value, code)
        case Failure(e) => o == Failure(e)
        case Success(p) =>
          o == Success(Outcome(p.stdout, p.stderr, ExitText(IntToString(p.returnCode)), elapsed, path.value))
    ensures o.Success? ==> (o.value.engine == [] <==> (which(program).None? || which(program).value == []))
  {
    var path := which(program);
    if path.None? || path.value == [] {
      return Success(Outcome("", program + " not found.", ExitStatus(127), 0.0, ""));
    }
    var process := spawn(path.value, code);
    if process.Failure? {
      return Failure(process.error);
    }
    var p := process.value;
    o := Success(Outcome(p.stdout, p.stderr, ExitText(IntToString(p.returnCode)), elapsed, path.value));
  }

  // ---------------------------------------------------------------------------
  // Result formatter

  const StdoutLabel: string := "- /dev/stdout:"
  const StderrLabel: string := "- /dev/stderr:"

  function Header(prog: string): string {
    "---- " + prog + " ----"
  }

  function Trailer(result: ResultValue, elapsedMs: string): string {
    "+ Returned " + Show(result) + " in approx " + elapsedMs + "ms"
  }

  /** The lines `_paginate_output` adds, in order; `elapsedMs` is the
      `%.2f` rendering of the elapsed milliseconds. */
  function OutputLines(stdout: string, stderr: string, result: ResultValue,
                       elapsedMs: string, prog: string): seq<string> {
    [Header(prog)]
    + (if stdout != [] then [StdoutLabel, stdout] else [])
    + (if stderr != [] then [StderrLabel, stderr] else [])
    + [Trailer(result, elapsedMs)]
  }

  /** A header, a labelled section per non-empty stream, and the trailer. */
  lemma OutputLinesShape(stdout: string, stderr: string, result: ResultValue, elapsedMs: string, prog: string)
    ensures var lines := OutputLines(stdout, stderr, result, elapsedMs, prog);
      && |lines| == 2 + (if stdout != [] then 2 else 0) + (if stderr != [] then 2 else 0)
      && 2 <= |lines| <= 6
      && lines[0] == "---- " + prog + " ----"
      && StartsWith(lines[|lines| - 1], "+ Returned " + Show(result))
      && (stdout != [] ==> lines[1] == StdoutLabel && lines[2] == stdout)
      && (stderr != [] ==> lines[|lines| - 3] == StderrLabel && lines[|lines| - 2] == stderr)
  {
    var t := Trailer(result, elapsedMs);
    var p := "+ Returned " + Show(result);
    assert t == p + (" in approx " + elapsedMs + "ms");
    assert t[..|p|] == p;
  }

  /** Reading the streams back from the lines: the inverse of the layout. */
  function RecoverStreams(lines: seq<string>): (string, string) {
    if |lines| == 6 then (lines[2], lines[4])
    else if |lines| == 4 && lines[1] == StdoutLabel then (lines[2], "")
    else if |lines| == 4 then ("", lines[2])
    else ("", "")
  }

  /** The layout loses nothing: both streams can be read back from the lines,
      so a stream's section appears exactly when it is non-empty. */
  lemma OutputLinesRecoverStreams(stdout: string, stderr: string, result: ResultValue, elapsedMs: string, prog: string)
    ensures RecoverStreams(OutputLines(stdout, stderr, result, elapsedMs, prog)) == (stdout, stderr)
  {
    assert StdoutLabel != StderrLabel by {
      assert StdoutLabel[10] != StderrLabel[10];
    }
  }

  /** `StringPaginator`, reduced to the lines added to it; page splitting is
      not part of this model. */
  class Paginator {
    var lines: seq<string>

    constructor ()
      ensures lines == []
    {
      lines := [];
    }

    method AddLine(line: string)
      modifies this
      ensures lines == old(lines) + [line]
    {
      lines := lines + [line];
    }
  }

  /** `SuperUser._paginate_output`. */
  method PaginateOutput(pag: Paginator, stdout: string, stderr: string, result: ResultValue,
                        execTime: real, prog: string, formatMs: real -> string)
    modifies pag
    ensures pag.lines == old(pag.lines) + OutputLines(stdout, stderr, result, formatMs(execTime * 1000.0), prog)
  {
    ghost var start := pag.lines;
    ghost var outSection: seq<string> := if stdout != [] then [StdoutLabel, stdout] else [];
    ghost var errSection: seq<string> := if stderr != [] then [StderrLabel, stderr] else [];
    pag.AddLine(Header(prog));
    if stdout != [] {
      pag.AddLine(StdoutLabel);
      pag.AddLine(stdout);
    }
    assert pag.lines == start + [Header(prog)] + outSection;
    if stderr != [] {
      pag.AddLine(StderrLabel);
      pag.AddLine(stderr);
    }
    assert pag.lines == start + [Header(prog)] + outSection + errSection;
    var trailer := Trailer(result, formatMs(execTime * 1000.0));
    pag.AddLine(trailer);
    AppendLines(start, [Header(prog)], outSection, errSection, [trailer]);
  }

  /** Appending the sections of the output one by one appends them together. */
  lemma AppendLines(start: seq<string>, a: seq<string>, b: seq<string>, c: seq<string>, d: seq<string>)
    ensures start + a + b + c + d == start + (a + b + c + d)
  {
  }

  /** Why `SuperUser.execute` raises: the argument could not be resolved, or
      the shell executor raised the named exception. */
  datatype ExecuteError =
    | Unresolved(reason: ResolveError)
    | ShellRaised(exceptionType: string)

  /** The outcome of the executor `ExecutorFor` picks, run on the resolved code. */
  function RunResolved(resolved: ResolvedCode, parse: string -> ParseVerdict, interpret: string -> Run,
                       which: string -> Option<string>, spawn: (string, string) -> Result<ProcessRun, string>,
                       elapsed: real, version: string): (r: Result<Outcome, string>)
    ensures ExecutorFor(resolved.language) == SessionExecutor ==>
      r == Success(SessionOutcome(resolved.code, parse(resolved.code), interpret, elapsed, version))
    ensures ExecutorFor(resolved.language) == ShellExecutor ==>
      r == ShellOutcome(resolved.language, resolved.code, which, spawn, elapsed)
  {
    if ExecutorFor(resolved.language) == SessionExecutor then
      Success(SessionOutcome(resolved.code, parse(resolved.code), interpret, elapsed, version))
    else
      ShellOutcome(resolved.language, resolved.code, which, spawn, elapsed)
  }

  /** Python code always yields a layout, headed by the interpreter's engine. */
  lemma SessionRunIsLaidOut(resolved: ResolvedCode, parse: string -> ParseVerdict, interpret: string -> Run,
                            which: string -> Option<string>, spawn: (string, string) -> Result<ProcessRun, string>,
                            elapsed: real, version: string, formatMs: real -> string)
    requires ExecutorFor(resolved.language) == SessionExecutor
    ensures RunResolved(resolved, parse, interpret, which, spawn, elapsed, version).Success?
    ensures var o := RunResolved(resolved, parse, interpret, which, spawn, elapsed, version).value;
      var lines := OutputLines(o.stdout, o.stderr, o.result, formatMs(o.elapsed * 1000.0), o.engine);
      2 <= |lines| <= 6 && lines[0] == Header(PythonEngine(version))
  {
    var o := RunResolved(resolved, parse, interpret, which, spawn, elapsed, version).value;
    OutputLinesShape(o.stdout, o.stderr, o.result, formatMs(o.elapsed * 1000.0), o.engine);
  }

  /** A shell program that cannot be found yields exactly four lines: an empty
      header, the stderr section with the message, and the exit status 127. */
  lemma ShellNotFoundIsLaidOut(resolved: ResolvedCode, parse: string -> ParseVerdict, interpret: string -> Run,
                               which: string -> Option<string>, spawn: (string, string) -> Result<ProcessRun, string>,
                               elapsed: real, version: string, formatMs: real -> string)
    requires ExecutorFor(resolved.language) == ShellExecutor
    requires which(resolved.language).None? || which(resolved.language).value == []
    ensures RunResolved(resolved, parse, interpret, which, spawn, elapsed, version).Success?
    ensures var o := RunResolved(resolved, parse, interpret, which, spawn, elapsed, version).value;
      OutputLines(o.stdout, o.stderr, o.result, formatMs(o.elapsed * 1000.0), o.engine)
        == [Header(""), StderrLabel, resolved.language + " not found.", "+ Returned " + "127" + " in approx " + formatMs(0.0) + "ms"]
  {
    var message := resolved.language + " not found.";
    NotFoundOutcome(resolved, parse, interpret, which, spawn, elapsed, version);
    assert message != [] by {
      assert |message| == |resolved.language| + 11;
    }
    NotFoundLines(message, formatMs(0.0 * 1000.0));
  }

  /** The outcome of a shell program that cannot be found. */
  lemma NotFoundOutcome(resolved: ResolvedCode, parse: string -> ParseVerdict, interpret: string -> Run,
                        which: string -> Option<string>, spawn: (string, string) -> Result<ProcessRun, string>,
                        elapsed: real, version: string)
    requires ExecutorFor(resolved.language) == ShellExecutor
    requires which(resolved.language).None? || which(resolved.language).value == []
    ensures RunResolved(resolved, parse, interpret, which, spawn, elapsed, version)
      == Success(Outcome("", resolved.language + " not found.", ExitStatus(127), 0.0, ""))
  {
    assert ShellOutcome(resolved.language, resolved.code, which, spawn, elapsed)
      == Success(Outcome("", resolved.language + " not found.", ExitStatus(127), 0.0, ""));
  }

  /** The lines of the "not found" outcome: the int 127 prints as "127". */
  lemma NotFoundLines(message: string, elapsedMs: string)
    requires message != []
    ensures OutputLines("", message, ExitStatus(127), elapsedMs, "")
      == [Header(""), StderrLabel, message, "+ Returned " + "127" + " in approx " + elapsedMs + "ms"]
  {
    assert Show(ExitStatus(127)) == "127" by {
      assert NatToString(1) == "1";
      assert NatToString(12) == NatToString(1) + "2";
      assert NatToString(127) == NatToString(12) + "7";
    }
  }

  /** `SuperUser.execute` up to building the pages: resolve, dispatch, run,
      lay out. A resolution error and an exception escaping the shell executor
      propagate; every other outcome is laid out. */
  method Execute(raw: string, invokedWith: string, shell: string,
                 parse: string -> ParseVerdict, interpret: string -> Run,
                 which: string -> Option<string>, spawn: (string, string) -> Result<ProcessRun, string>,
                 elapsed: real, version: string, formatMs: real -> string)
    returns (r: Result<seq<string>, ExecuteError>)
    ensures ResolveCode(raw, invokedWith, shell).Failure? ==>
      r == Failure(Unresolved(ResolveCode(raw, invokedWith, shell).error))
    ensures ResolveCode(raw, invokedWith, shell).Success? ==>
      match RunResolved(ResolveCode(raw, invokedWith, shell).value, parse, interpret, which, spawn, elapsed, version)
      case Failure(e) => r == Failure(ShellRaised(e))
      case Success(o) => r == Success(OutputLines(o.stdout, o.stderr, o.result, formatMs(o.elapsed * 1000.0), o.engine))
  {
    var resolution := ResolveCode(raw, invokedWith, shell);
    if resolution.Failure? {
      return Failure(Unresolved(resolution.error));
    }
    var language, code := resolution.value.language, resolution.value.code;
    var outcome: Result<Outcome, string>;
    if ExecutorFor(language) == SessionExecutor {
      var o := ExecuteInSession(language, code, parse(code), interpret, elapsed, version);
      outcome := Success(o);
    } else {
      outcome := ExecuteInShell(language, code, which, spawn, elapsed);
    }
    assert outcome == RunResolved(resolution.value, parse, interpret, which, spawn, elapsed, version);
    if outcome.Failure? {
      return Failure(ShellRaised(outcome.error));
    }
    var o := outcome.value;
    var pag := new Paginator();
    PaginateOutput(pag, o.stdout, o.stderr, o.result, o.elapsed, o.engine, formatMs);
    assert pag.lines == OutputLines(o.stdout, o.stderr, o.result, formatMs(o.elapsed * 1000.0), o.engine);
    r := Success(pag.lines);
    assert RunResolved(ResolveCode(raw, invokedWith, shell).value, parse, interpret, which, spawn, elapsed, version) == Success(o);
  }
}
