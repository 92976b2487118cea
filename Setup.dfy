/** `parse_requirements_file` of setup.py, on the text of the file: split on
    "\n", strip each line, drop the blank ones, then drop those that start
    with "#". */
module Setup {

  import opened Text

  /** `(d.strip() for d in lines if d.strip())`. */
  function StrippedNonBlank(lines: seq<string>): seq<string> {
    if lines == [] then []
    else (if Strip(lines[0]) != [] then [Strip(lines[0])] else []) + StrippedNonBlank(lines[1..])
  }

  /** `[d for d in ds if not d.startswith("#")]`. */
  function DropComments(ds: seq<string>): seq<string> {
    if ds == [] then []
    else (if !StartsWith(ds[0], "#") then [ds[0]] else []) + DropComments(ds[1..])
  }

  /** The requirements listed in a file whose content is `content`. */
  function ParseRequirements(content: string): seq<string> {
    DropComments(StrippedNonBlank(Split(content, '\n')))
  }

  /** A line is kept when its stripped form is non-empty and does not start
      with "#"; a "#" later in the line does not matter. */
  predicate Kept(line: string) {
    Strip(line) != [] && !StartsWith(Strip(line), "#")
  }

  /** One pass over the lines, keeping the stripped form of each kept line:
      the reference the two passes of the source are compared with. */
  function KeptLines(lines: seq<string>): seq<string> {
    if lines == [] then []
    else (if Kept(lines[0]) then [Strip(lines[0])] else []) + KeptLines(lines[1..])
  }

  lemma {:induction false} TwoPassesAreOnePass(lines: seq<string>)
    ensures DropComments(StrippedNonBlank(lines)) == KeptLines(lines)
  {
    if lines != [] {
      var h := if Strip(lines[0]) != [] then [Strip(lines[0])] else [];
      assert StrippedNonBlank(lines) == h + StrippedNonBlank(lines[1..]);
      DropCommentsConcat(h, StrippedNonBlank(lines[1..]));
      if h != [] {
        assert DropComments(h) == (if !StartsWith(h[0], "#") then [h[0]] else []) + DropComments(h[1..]);
        assert h[1..] == [];
      }
      TwoPassesAreOnePass(lines[1..]);
    }
  }

  lemma {:induction false} DropCommentsConcat(a: seq<string>, b: seq<string>)
    ensures DropComments(a + b) == DropComments(a) + DropComments(b)
  {
    if a == [] {
      assert a + b == b;
    } else {
      assert (a + b)[0] == a[0];
      assert (a + b)[1..] == a[1..] + b;
      DropCommentsConcat(a[1..], b);
    }
  }

  /** What every returned requirement looks like. */
  predicate IsEntry(e: string) {
    e != [] && !StartsWith(e, "#") && Strip(e) == e && '\n' !in e
  }

  lemma InfixKeepsNoNewline(s: string, r: string, i: int)
    requires '\n' !in s && 0 <= i <= |s| - |r| && s[i..i + |r|] == r
    ensures '\n' !in r
  {
    forall k | 0 <= k < |r|
      ensures r[k] != '\n'
    {
      assert r[k] == s[i + k];
    }
  }

  lemma StripKeepsNoNewline(s: string)
    requires '\n' !in s
    ensures '\n' !in Strip(s)
  {
    StripIsInfix(s);
    InfixKeepsNoNewline(s, Strip(s), |TrimRight(s)| - |Strip(s)|);
  }

  /** The stripped form of a kept line is an entry. */
  lemma KeptIsEntry(line: string)
    requires '\n' !in line && Kept(line)
    ensures IsEntry(Strip(line))
  {
    StripIdempotent(line);
    StripKeepsNoNewline(line);
  }

  lemma {:induction false} KeptLinesAreEntries(lines: seq<string>)
    requires forall k :: 0 <= k < |lines| ==> '\n' !in lines[k]
    ensures forall k :: 0 <= k < |KeptLines(lines)| ==> IsEntry(KeptLines(lines)[k])
  {
    if lines != [] {
      var rest := KeptLines(lines[1..]);
      KeptLinesAreEntries(lines[1..]);
      KeptLinesCons(lines);
      if Kept(lines[0]) {
        KeptIsEntry(lines[0]);
        var r := KeptLines(lines);
        assert r == [Strip(lines[0])] + rest;
        forall k | 0 <= k < |r|
          ensures IsEntry(r[k])
        {
          if k > 0 {
            assert r[k] == rest[k - 1];
          }
        }
      }
    }
  }

  /** No requirement is empty, starts with "#", has whitespace around it or
      holds a newline. */
  lemma RequirementsAreEntries(content: string)
    ensures forall k :: 0 <= k < |ParseRequirements(content)| ==> IsEntry(ParseRequirements(content)[k])
  {
    TwoPassesAreOnePass(Split(content, '\n'));
    KeptLinesAreEntries(Split(content, '\n'));
  }

  /** `a` is a subsequence of `b`. */
  predicate IsSubsequence(a: seq<string>, b: seq<string>) {
    if a == [] then true
    else if b == [] then false
    else IsSubsequence(a, b[1..]) || (a[0] == b[0] && IsSubsequence(a[1..], b[1..]))
  }

  /** Every line, stripped, in order. */
  function StripAll(lines: seq<string>): (r: seq<string>)
    ensures |r| == |lines|
    ensures forall k :: 0 <= k < |lines| ==> r[k] == Strip(lines[k])
  {
    if lines == [] then [] else [Strip(lines[0])] + StripAll(lines[1..])
  }

  lemma SubsequenceExtend(x: string, a: seq<string>, b: seq<string>)
    requires IsSubsequence(a, b)
    ensures IsSubsequence(a, [x] + b)
    ensures IsSubsequence([x] + a, [x] + b)
  {
    assert ([x] + b)[1..] == b;
    assert ([x] + a)[1..] == a;
  }

  lemma StripAllCons(lines: seq<string>)
    requires lines != []
    ensures StripAll(lines) == [Strip(lines[0])] + StripAll(lines[1..])
  {
  }

  lemma KeptLinesCons(lines: seq<string>)
    requires lines != []
    ensures Kept(lines[0]) ==> KeptLines(lines) == [Strip(lines[0])] + KeptLines(lines[1..])
    ensures !Kept(lines[0]) ==> KeptLines(lines) == KeptLines(lines[1..])
  {
  }

  lemma {:induction false} KeptLinesSubsequence(lines: seq<string>)
    ensures IsSubsequence(KeptLines(lines), StripAll(lines))
  {
    if lines != [] {
      var rest := lines[1..];
      KeptLinesSubsequence(rest);
      SubsequenceExtend(Strip(lines[0]), KeptLines(rest), StripAll(rest));
      StripAllCons(lines);
      KeptLinesCons(lines);
    }
  }

  /** The requirements keep the file's order: they are a subsequence of its
      stripped lines. */
  lemma RequirementsAreSubsequence(content: string)
    ensures IsSubsequence(ParseRequirements(content), StripAll(Split(content, '\n')))
  {
    TwoPassesAreOnePass(Split(content, '\n'));
    KeptLinesSubsequence(Split(content, '\n'));
  }

  /** Line by line: the first line contributes its stripped form exactly when
      it is kept, and the rest of the file is parsed on its own. */
  lemma RequirementsOfLines(line: string, more: string)
    requires '\n' !in line
    ensures ParseRequirements(line + "\n" + more)
      == (if Kept(line) then [Strip(line)] else []) + ParseRequirements(more)
  {
    var s := line + "\n" + more;
    IndexOfAfterPrefix(line, '\n', more);
    assert s[..|line|] == line && s[|line| + 1..] == more;
    assert Split(s, '\n') == [line] + Split(more, '\n');
    TwoPassesAreOnePass(Split(s, '\n'));
    TwoPassesAreOnePass(Split(more, '\n'));
  }

  lemma {:induction false} KeptLinesOfEntries(es: seq<string>)
    requires forall k :: 0 <= k < |es| ==> IsEntry(es[k])
    ensures KeptLines(es) == es
  {
    if es != [] {
      KeptLinesOfEntries(es[1..]);
    }
  }

  /** Writing the requirements back one per line and parsing again gives the
      same requirements. */
  lemma ParseIdempotent(content: string)
    ensures ParseRequirements(JoinWith(ParseRequirements(content), '\n')) == ParseRequirements(content)
  {
    var r := ParseRequirements(content);
    RequirementsAreEntries(content);
    if r == [] {
      assert Split([], '\n') == [[]];
    } else {
      SplitJoin(r, '\n');
      TwoPassesAreOnePass(r);
      KeptLinesOfEntries(r);
    }
  }

  /** A file of one line yields that line, stripped, exactly when it is kept. */
  lemma SingleLine(line: string)
    requires '\n' !in line
    ensures ParseRequirements(line) == if Kept(line) then [Strip(line)] else []
  {
    SplitJoin([line], '\n');
    assert JoinWith([line], '\n') == line;
    TwoPassesAreOnePass([line]);
  }

  /** An indented comment is not kept, however deep the indentation. */
  lemma IndentedCommentDropped(indent: string, comment: string)
    requires AllSpace(indent) && StartsWith(comment, "#")
    ensures !Kept(indent + comment)
  {
    var s := indent + comment;
    assert s[..|indent|] == indent;
    assert s[|indent|] == comment[0] == '#';
    StripStartsAt(s, |indent|);
    assert Strip(s)[..1] == "#";
  }

  /** A "#" after the requirement does not drop the line, which is kept
      whole. */
  lemma InlineHashKept(requirement: string, note: string)
    requires requirement != [] && !IsSpace(requirement[0]) && requirement[0] != '#'
    requires note != [] && !IsSpace(note[|note| - 1])
    ensures var line := requirement + " # " + note;
      Kept(line) && Strip(line) == line
  {
    var line := requirement + " # " + note;
    assert line[0] == requirement[0];
    assert line[|line| - 1] == note[|note| - 1];
    StripFixedPoint(line);
    assert line[..1] != "#" by {
      assert line[..1][0] == requirement[0];
    }
  }
}
