/** `textwrap.indent(text, prefix)` as CPython 3.8/3.9 define it: split the text
    with `str.splitlines(True)` and put the prefix before every line whose
    `strip()` is non-empty. The session executor indents with four spaces. */
module TextWrap {

  import opened Text

  /** The line boundaries `str.splitlines` recognises: \n, \r (alone or in \r\n),
      \v, \f, \x1c, \x1d, \x1e, \x85, U+2028 and U+2029. */
  predicate IsLineBoundary(c: char) {
    var n := c as int;
    || 0x0A <= n <= 0x0D
    || 0x1C <= n <= 0x1E
    || n == 0x85 || n == 0x2028 || n == 0x2029
  }

  predicate NoLineBoundary(s: string) {
    forall i :: 0 <= i < |s| ==> !IsLineBoundary(s[i])
  }

  /** Length of the first line of `s`, its line ending included. */
  function LineLength(s: string): (n: nat)
    requires s != []
    ensures 1 <= n <= |s|
  {
    if IsLineBoundary(s[0]) then
      (if s[0] == '\r' && |s| > 1 && s[1] == '\n' then 2 else 1)
    else if |s| == 1 then 1
    else 1 + LineLength(s[1..])
  }

  /** `s.splitlines(True)`. */
  function SplitLines(s: string): (lines: seq<string>)
    ensures forall k :: 0 <= k < |lines| ==> lines[k] != []
    decreases |s|
  {
    if s == [] then [] else var n := LineLength(s); [s[..n]] + SplitLines(s[n..])
  }

  /** `''.join(lines)`. */
  function Concat(lines: seq<string>): string {
    if lines == [] then [] else lines[0] + Concat(lines[1..])
  }

  /** Splitting loses nothing: the lines put back together are the text. */
  lemma {:induction false} ConcatSplitLines(s: string)
    ensures Concat(SplitLines(s)) == s
    decreases |s|
  {
    if s != [] {
      var n := LineLength(s);
      ConcatSplitLines(s[n..]);
      assert SplitLines(s)[1..] == SplitLines(s[n..]);
      assert s == s[..n] + s[n..];
    }
  }

  /** No line boundary inside `line` before its last character, except the
      `\r` of a final `\r\n`. */
  predicate NoInnerBoundary(line: string) {
    forall i :: 0 <= i < |line| - 1 && IsLineBoundary(line[i]) ==>
      i == |line| - 2 && line[i] == '\r' && line[i + 1] == '\n'
  }

  /** The first line ends at the first boundary (taking `\r\n` as one) and
      nowhere earlier; a `\r` ending it is never followed by `\n`. */
  lemma {:induction false} FirstLineShape(s: string)
    requires s != []
    ensures var n := LineLength(s);
      && NoInnerBoundary(s[..n])
      && (n < |s| ==> IsLineBoundary(s[n - 1]))
      && (n < |s| && s[n - 1] == '\r' ==> s[n] != '\n')
    decreases |s|
  {
    var n := LineLength(s);
    if !IsLineBoundary(s[0]) && |s| > 1 {
      var t := s[1..];
      var m := LineLength(t);
      FirstLineShape(t);
      assert n == 1 + m;
      var line := s[..n];
      forall i | 0 <= i < |line| - 1 && IsLineBoundary(line[i])
        ensures i == |line| - 2 && line[i] == '\r' && line[i + 1] == '\n'
      {
        if i > 0 {
          assert line[i] == t[..m][i - 1] && line[i + 1] == t[..m][i];
        }
      }
      assert s[n - 1] == t[m - 1];
    }
  }

  /** Line `a` is followed by line `b`: `a` ends in a boundary, and when
      that is `\r`, `b` does not start with `\n` (the two would be one
      `\r\n` ending). */
  predicate Joins(a: string, b: string) {
    a != [] && IsLineBoundary(a[|a| - 1]) && (a[|a| - 1] == '\r' && b != [] ==> b[0] != '\n')
  }

  /** Lines as `splitlines(True)` cuts them: non-empty, no boundary inside
      any line, and each line but the last ending where the next begins. */
  predicate BreaksAtBoundaries(lines: seq<string>) {
    && (forall k :: 0 <= k < |lines| ==> lines[k] != [] && NoInnerBoundary(lines[k]))
    && (forall k :: 0 <= k < |lines| - 1 ==> Joins(lines[k], lines[k + 1]))
  }

  lemma ConsBreaks(line: string, more: seq<string>)
    requires line != [] && NoInnerBoundary(line) && BreaksAtBoundaries(more)
    requires more != [] ==> Joins(line, more[0])
    ensures BreaksAtBoundaries([line] + more)
  {
    var lines := [line] + more;
    forall k | 0 <= k < |lines|
      ensures lines[k] != [] && NoInnerBoundary(lines[k])
    {
      if k > 0 {
        assert lines[k] == more[k - 1];
      }
    }
    forall k | 0 <= k < |lines| - 1
      ensures Joins(lines[k], lines[k + 1])
    {
      if k > 0 {
        assert lines[k] == more[k - 1] && lines[k + 1] == more[k];
      }
    }
  }

  /** `splitlines` breaks exactly at the line boundaries: every line but the
      last ends in a boundary, no line holds a boundary before its end except
      the `\r` of a final `\r\n`, and a line ending in `\r` is not followed
      by one starting with `\n`. */
  lemma {:induction false} SplitLinesAtBoundaries(s: string)
    ensures BreaksAtBoundaries(SplitLines(s))
    decreases |s|
  {
    if s != [] {
      var n := LineLength(s);
      var rest := s[n..];
      FirstLineShape(s);
      SplitLinesAtBoundaries(rest);
      var more := SplitLines(rest);
      assert SplitLines(s) == [s[..n]] + more;
      if more != [] {
        assert rest != [] && more[0] == rest[..LineLength(rest)];
        assert s[..n][n - 1] == s[n - 1] && more[0][0] == s[n];
      }
      ConsBreaks(s[..n], more);
    }
  }

  /** A line without inner boundaries is the first line of any text it
      starts, provided the text goes on only past a boundary that does not
      pair with the next character. */
  lemma {:induction false} LineLengthOfLine(line: string, rest: string)
    requires line != [] && NoInnerBoundary(line)
    requires rest != [] ==> IsLineBoundary(line[|line| - 1]) && (line[|line| - 1] == '\r' ==> rest[0] != '\n')
    ensures LineLength(line + rest) == |line|
    decreases |line|
  {
    var s := line + rest;
    assert s[0] == line[0];
    if |line| == 1 {
      if rest != [] {
        assert s[1] == rest[0];
      }
    } else if !IsLineBoundary(line[0]) {
      var tail := line[1..];
      forall i | 0 <= i < |tail| - 1 && IsLineBoundary(tail[i])
        ensures i == |tail| - 2 && tail[i] == '\r' && tail[i + 1] == '\n'
      {
        assert tail[i] == line[i + 1] && tail[i + 1] == line[i + 2];
      }
      assert tail[|tail| - 1] == line[|line| - 1];
      LineLengthOfLine(tail, rest);
      assert s[1..] == tail + rest;
    } else {
      assert |line| == 2 && line[1] == '\n';
      assert s[1] == '\n';
    }
  }

  /** `splitlines(True)` is the only way to cut a text into lines that break
      at the boundaries: any such cut whose lines join to the text is it. */
  lemma {:induction false} SplitLinesUnique(s: string, lines: seq<string>)
    requires Concat(lines) == s && BreaksAtBoundaries(lines)
    ensures lines == SplitLines(s)
    decreases |lines|
  {
    if lines != [] {
      var line, more := lines[0], lines[1..];
      var rest := Concat(more);
      assert s == line + rest;
      assert BreaksAtBoundaries(more) by {
        forall k | 0 <= k < |more| - 1
          ensures Joins(more[k], more[k + 1])
        {
          assert Joins(lines[k + 1], lines[k + 2]);
        }
      }
      if rest != [] {
        assert more != [] && Joins(line, more[0]);
        ConcatHead(more);
      }
      LineLengthOfLine(line, rest);
      assert s[..|line|] == line && s[|line|..] == rest;
      SplitLinesUnique(rest, more);
    }
  }

  /** A join of non-empty lines starts with the first line's first character. */
  lemma ConcatHead(lines: seq<string>)
    requires lines != [] && lines[0] != []
    ensures Concat(lines) != [] && Concat(lines)[0] == lines[0][0]
  {
  }

  const IndentPrefix: string := "    "

  /** `textwrap.indent`'s default predicate `line.strip()` is false. */
  predicate IsBlank(line: string) {
    AllSpace(line)
  }

  function IndentLine(line: string): string {
    if IsBlank(line) then line else IndentPrefix + line
  }

  function IndentLines(lines: seq<string>): seq<string> {
    if lines == [] then [] else [IndentLine(lines[0])] + IndentLines(lines[1..])
  }

  /** `textwrap.indent(text, '    ')`. */
  function Indent(text: string): string {
    Concat(IndentLines(SplitLines(text)))
  }

  /** The inverse used in the round-trip lemma: drop the prefix from every
      non-blank line that carries it. */
  function UnindentLine(line: string): string {
    if !IsBlank(line) && StartsWith(line, IndentPrefix) then line[|IndentPrefix|..] else line
  }

  function UnindentLines(lines: seq<string>): seq<string> {
    if lines == [] then [] else [UnindentLine(lines[0])] + UnindentLines(lines[1..])
  }

  function Unindent(text: string): string {
    Concat(UnindentLines(SplitLines(text)))
  }

  lemma PrefixedLineLength(p: string, x: string)
    requires NoLineBoundary(p) && x != []
    ensures LineLength(p + x) == |p| + LineLength(x)
    decreases |p|
  {
    if p != [] {
      assert (p + x)[0] == p[0] && |p + x| > 1;
      assert !IsLineBoundary(p[0]);
      assert (p + x)[1..] == p[1..] + x;
      assert LineLength(p + x) == 1 + LineLength(p[1..] + x);
      PrefixedLineLength(p[1..], x);
    } else {
      assert p + x == x;
    }
  }

  /** The first line of `u` has the same length as that of `t` when `u` agrees
      with `t` up to that line's end and, past it, either stops or continues
      with the character `t` has there or with a space. */
  lemma {:induction false} LineLengthStable(t: string, u: string)
    requires t != []
    requires LineLength(t) <= |u| && u[..LineLength(t)] == t[..LineLength(t)]
    requires var n := LineLength(t);
      n == |u| || (n < |t| && (u[n] == t[n] || u[n] == ' '))
    ensures u != [] && LineLength(u) == LineLength(t)
    decreases |t|
  {
    var n := LineLength(t);
    assert u[0] == u[..n][0] == t[..n][0] == t[0];
    if IsLineBoundary(t[0]) {
      if n == 2 {
        assert u[1] == u[..n][1] == t[..n][1] == t[1];
      }
    } else if |t| > 1 {
      var m := LineLength(t[1..]);
      assert n == 1 + m;
      assert u[1..][..m] == u[..n][1..];
      assert t[1..][..m] == t[..n][1..];
      LineLengthStable(t[1..], u[1..]);
    }
  }

  /** Indenting never empties a non-empty text and keeps its first character
      or starts with the prefix's space. */
  lemma IndentHead(text: string)
    ensures (Indent(text) == []) <==> (text == [])
    ensures text != [] ==> Indent(text)[0] == ' ' || Indent(text)[0] == text[0]
  {
    if text != [] {
      var n := LineLength(text);
      var lines := SplitLines(text);
      assert lines[0] == text[..n];
      assert IndentLines(lines)[0] == IndentLine(text[..n]);
      assert Indent(text) == IndentLine(text[..n]) + Concat(IndentLines(lines)[1..]);
    }
  }

  /** Indenting a text is indenting its first line and then the rest. */
  lemma IndentUnfold(text: string)
    requires text != []
    ensures var n := LineLength(text);
      Indent(text) == IndentLine(text[..n]) + Indent(text[n..])
  {
    var n := LineLength(text);
    var lines := SplitLines(text);
    assert lines == [text[..n]] + SplitLines(text[n..]);
    assert IndentLines(lines) == [IndentLine(text[..n])] + IndentLines(SplitLines(text[n..]));
  }

  /** The first line of a text stays the first line when the rest is indented. */
  lemma FirstLineSurvives(text: string)
    requires text != []
    ensures var n := LineLength(text);
      LineLength(text[..n] + Indent(text[n..])) == n
  {
    var n := LineLength(text);
    var rest := text[n..];
    var y := Indent(rest);
    var u := text[..n] + y;
    IndentHead(rest);
    assert u[..n] == text[..n];
    if n < |u| {
      assert u[n] == y[0];
      assert rest != [] && rest[0] == text[n];
    }
    LineLengthStable(text, u);
  }

  /** Indenting a line that is the first line of `line + y` keeps it the
      first line. */
  lemma IndentedLineLength(line: string, y: string)
    requires line != [] && LineLength(line + y) == |line|
    ensures LineLength(IndentLine(line) + y) == |IndentLine(line)|
  {
    if !IsBlank(line) {
      assert IndentLine(line) + y == IndentPrefix + (line + y);
      PrefixedLineLength(IndentPrefix, line + y);
    }
  }

  /** The indented first line is the first line of the indented text. */
  lemma IndentFirstLine(text: string)
    requires text != []
    ensures var n := LineLength(text);
      var x := IndentLine(text[..n]);
      && Indent(text) == x + Indent(text[n..])
      && LineLength(Indent(text)) == |x|
  {
    var n := LineLength(text);
    IndentUnfold(text);
    FirstLineSurvives(text);
    IndentedLineLength(text[..n], Indent(text[n..]));
  }

  /** The indented text has exactly the original's lines, each non-blank one
      prefixed: `textwrap.indent` neither merges nor splits lines. */
  lemma {:induction false} SplitLinesOfIndent(text: string)
    ensures SplitLines(Indent(text)) == IndentLines(SplitLines(text))
    decreases |text|
  {
    if text != [] {
      var n := LineLength(text);
      var x, y := IndentLine(text[..n]), Indent(text[n..]);
      IndentFirstLine(text);
      var w := Indent(text);
      assert w == x + y && LineLength(w) == |x|;
      assert w[..|x|] == x && w[|x|..] == y;
      assert SplitLines(w) == [x] + SplitLines(y);
      SplitLinesOfIndent(text[n..]);
      assert SplitLines(text) == [text[..n]] + SplitLines(text[n..]);
    }
  }

  lemma {:induction false} UnindentIndentLines(lines: seq<string>)
    ensures UnindentLines(IndentLines(lines)) == lines
  {
    if lines != [] {
      var l := lines[0];
      if !IsBlank(l) {
        var i :| 0 <= i < |l| && !IsSpace(l[i]);
        assert (IndentPrefix + l)[|IndentPrefix| + i] == l[i];
        assert (IndentPrefix + l)[|IndentPrefix|..] == l;
      }
      UnindentIndentLines(lines[1..]);
    }
  }

  /** Round trip: removing the prefix from the indented text's non-blank lines
      gives back the original text. */
  lemma IndentRoundTrip(text: string)
    ensures Unindent(Indent(text)) == text
  {
    SplitLinesOfIndent(text);
    UnindentIndentLines(SplitLines(text));
    ConcatSplitLines(text);
  }
}
