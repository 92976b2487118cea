/** `CODEBLOCK_REGEX` of filament/exts/superuser.py,
        ```(?P<lang>[a-zA-Z0-9]*)\s(?P<code>[\s\S(^\\`{3})]*?)\s*```
    applied with `re.match` (anchored at the start, not at the end). The
    character class of `code` matches every character, so the group is simply
    the shortest text after which optional whitespace and a fence follow. */
module CodeBlock {

  import opened Wrappers
  import opened Text

  const Fence: string := "```"

  predicate FenceAt(s: string, i: int) {
    0 <= i && i + 3 <= |s| && s[i] == '`' && s[i + 1] == '`' && s[i + 2] == '`'
  }

  /** End of the longest `[a-zA-Z0-9]*` run of `s` starting at `i`. */
  function AlnumEnd(s: string, i: nat): (e: nat)
    requires i <= |s|
    ensures i <= e <= |s|
    ensures forall k :: i <= k < e ==> IsAsciiAlnum(s[k])
    ensures e == |s| || !IsAsciiAlnum(s[e])
    decreases |s| - i
  {
    if i == |s| || !IsAsciiAlnum(s[i]) then i else AlnumEnd(s, i + 1)
  }

  /** The first fence at or after `from`. */
  function FirstFence(s: string, from: nat): (r: Option<nat>)
    requires from <= |s|
    ensures r.Some? ==> from <= r.value && FenceAt(s, r.value)
    ensures r.Some? ==> forall i :: from <= i < r.value ==> !FenceAt(s, i)
    ensures r.None? ==> forall i :: from <= i ==> !FenceAt(s, i)
    decreases |s| - from
  {
    if from + 3 > |s| then None
    else if FenceAt(s, from) then Some(from)
    else FirstFence(s, from + 1)
  }

  /** A fence at `p` with none between `from` and it is the first one. */
  lemma FirstFenceAt(s: string, from: nat, p: nat)
    requires from <= p && FenceAt(s, p)
    requires forall i :: from <= i < p ==> !FenceAt(s, i)
    ensures FirstFence(s, from) == Some(p)
  {
    var r := FirstFence(s, from);
    assert r.Some?;
    assert r.value <= p;
  }

  /** `CODEBLOCK_REGEX.match(s)`, giving the groups `(lang, code)` or `None`. */
  function MatchCodeBlock(s: string): (r: Option<(string, string)>)
    ensures !FenceAt(s, 0) ==> r.None?
  {
    if !FenceAt(s, 0) then None
    else
      var e := AlnumEnd(s, 3);
      if e == |s| || !IsSpace(s[e]) then None
      else
        match FirstFence(s, e + 1)
        case None => None
        case Some(p) => Some((s[3..e], TrimRight(s[e + 1..p])))
  }

  /** The regular expression read as a grammar: `s` begins with a fence, an
      alphanumeric tag, one whitespace character, the body, a whitespace run
      and a fence (anything may follow). */
  ghost predicate Decomposes(s: string, tag: string, body: string) {
    var b := 4 + |tag|;
    && b + |body| <= |s|
    && FenceAt(s, 0)
    && (forall i :: 0 <= i < |tag| ==> IsAsciiAlnum(tag[i]))
    && s[3..3 + |tag|] == tag
    && IsSpace(s[3 + |tag|])
    && s[b..b + |body|] == body
    && exists j :: b + |body| <= j && FenceAt(s, j) && forall k :: b + |body| <= k < j ==> IsSpace(s[k])
  }

  /** What a successful match is made of. */
  lemma MatchParts(s: string)
    requires MatchCodeBlock(s).Some?
    ensures FenceAt(s, 0)
    ensures var e := AlnumEnd(s, 3);
      && e < |s| && IsSpace(s[e]) && FirstFence(s, e + 1).Some?
      && MatchCodeBlock(s).value == (s[3..e], TrimRight(s[e + 1..FirstFence(s, e + 1).value]))
  {
    var e := AlnumEnd(s, 3);
    assert e < |s| && IsSpace(s[e]);
    assert FirstFence(s, e + 1).Some?;
  }

  /** A decomposition, given the position of its closing fence. */
  lemma DecomposesAt(s: string, tag: string, body: string, j: int)
    requires 4 + |tag| + |body| <= j && FenceAt(s, j) && FenceAt(s, 0)
    requires s[3..3 + |tag|] == tag && IsSpace(s[3 + |tag|])
    requires forall i :: 0 <= i < |tag| ==> IsAsciiAlnum(tag[i])
    requires s[4 + |tag|..4 + |tag| + |body|] == body
    requires forall k :: 4 + |tag| + |body| <= k < j ==> IsSpace(s[k])
    ensures Decomposes(s, tag, body)
  {
  }

  /** The right-trimmed text between `a` and `p` sits at `a`, followed by
      whitespace up to `p`. */
  lemma TrimmedRun(s: string, a: nat, p: nat)
    requires a <= p <= |s|
    ensures var body := TrimRight(s[a..p]);
      && a + |body| <= p
      && s[a..a + |body|] == body
      && forall k :: a + |body| <= k < p ==> IsSpace(s[k])
  {
    var raw := s[a..p];
    var body := TrimRight(raw);
    assert s[a..a + |body|] == raw[..|body|];
    var gap := raw[|body|..];
    assert AllSpace(gap);
    forall k | a + |body| <= k < p
      ensures IsSpace(s[k])
    {
      assert s[k] == gap[k - a - |body|];
    }
  }

  /** Soundness: a match is a decomposition. */
  lemma MatchIsDecomposition(s: string)
    requires MatchCodeBlock(s).Some?
    ensures Decomposes(s, MatchCodeBlock(s).value.0, MatchCodeBlock(s).value.1)
  {
    MatchParts(s);
    var e := AlnumEnd(s, 3);
    PartsDecompose(s, e, FirstFence(s, e + 1).value);
  }

  /** The parts a match is made of form a decomposition. */
  lemma PartsDecompose(s: string, e: nat, p: nat)
    requires FenceAt(s, 0) && 3 <= e < p && FenceAt(s, p)
    requires forall k :: 3 <= k < e ==> IsAsciiAlnum(s[k])
    requires IsSpace(s[e])
    ensures Decomposes(s, s[3..e], TrimRight(s[e + 1..p]))
  {
    var tag, body := s[3..e], TrimRight(s[e + 1..p]);
    forall i | 0 <= i < |tag|
      ensures IsAsciiAlnum(tag[i])
    {
      assert tag[i] == s[3 + i];
    }
    assert |tag| == e - 3 && s[3..3 + |tag|] == tag;
    TrimmedRun(s, e + 1, p);
    DecomposesAt(s, tag, body, p);
  }

  /** Greedy tag and lazy body: every decomposition has the matched tag and a
      body at least as long as the matched one, and a decomposition exists only
      when the match succeeds. With `MatchIsDecomposition`, the match is exactly
      the decomposition with the shortest body. */
  lemma MatchIsShortestDecomposition(s: string, tag: string, body: string)
    requires Decomposes(s, tag, body)
    ensures MatchCodeBlock(s).Some?
    ensures MatchCodeBlock(s).value.0 == tag
    ensures |MatchCodeBlock(s).value.1| <= |body|
  {
    var e := 3 + |tag|;
    forall k | 3 <= k < e
      ensures IsAsciiAlnum(s[k])
    {
      assert s[k] == tag[k - 3];
    }
    AlnumEndAt(s, 3, e);
    var j :| e + 1 + |body| <= j && FenceAt(s, j) && forall k :: e + 1 + |body| <= k < j ==> IsSpace(s[k]);
    var p := FirstFence(s, e + 1).value;
    assert p <= j;
    MatchAt(s, e, p);
    TrimmedBound(s, e + 1, p, j, |body|);
  }

  /** Text that is whitespace from `a + n` up to `j` keeps at most `n`
      characters when right-trimmed, whatever end `p <= j` it is cut at. */
  lemma TrimmedBound(s: string, a: nat, p: nat, j: nat, n: nat)
    requires a <= p <= j <= |s|
    requires forall k :: a + n <= k < j ==> IsSpace(s[k])
    ensures |TrimRight(s[a..p])| <= n
  {
    var x := s[a..p];
    forall k | n <= k < |x|
      ensures IsSpace(x[k])
    {
      assert x[k] == s[a + k];
    }
    TrimRightBound(x, n);
  }

  /** The body never contains a fence and never ends in whitespace. */
  lemma MatchedBodyShape(s: string)
    requires MatchCodeBlock(s).Some?
    ensures forall i :: !FenceAt(MatchCodeBlock(s).value.1, i)
    ensures var body := MatchCodeBlock(s).value.1;
      body == [] || !IsSpace(body[|body| - 1])
  {
    MatchParts(s);
    var e := AlnumEnd(s, 3);
    var p := FirstFence(s, e + 1).value;
    var body := TrimRight(s[e + 1..p]);
    forall i | 0 <= i && i + 3 <= |body|
      ensures !FenceAt(body, i)
    {
      assert !FenceAt(s, e + 1 + i);
      assert body[i] == s[e + 1 + i] && body[i + 1] == s[e + 2 + i] && body[i + 2] == s[e + 3 + i];
    }
  }

  /** A match, given where the tag ends and where the closing fence is. */
  lemma MatchAt(s: string, e: nat, p: nat)
    requires FenceAt(s, 0) && e < |s| && AlnumEnd(s, 3) == e && IsSpace(s[e])
    requires FirstFence(s, e + 1) == Some(p)
    ensures MatchCodeBlock(s) == Some((s[3..e], TrimRight(s[e + 1..p])))
  {
  }

  /** The usual way of writing a block: fence, tag, newline, body, newline,
      fence. */
  function Formatted(tag: string, body: string): string {
    Fence + tag + "\n" + body + "\n" + Fence
  }

  /** The end of an alphanumeric run, given where it stops. */
  lemma AlnumEndAt(s: string, i: nat, e: nat)
    requires i <= e <= |s|
    requires forall k :: i <= k < e ==> IsAsciiAlnum(s[k])
    requires e == |s| || !IsAsciiAlnum(s[e])
    ensures AlnumEnd(s, i) == e
  {
  }

  /** Where the pieces of a written block sit. */
  lemma FormattedLayout(tag: string, body: string)
    ensures var s := Formatted(tag, body); var n := |tag|; var p := 4 + n + |body|;
      && |s| == p + 4
      && FenceAt(s, 0) && FenceAt(s, p + 1)
      && s[3..3 + n] == tag && s[3 + n] == '\n'
      && s[4 + n..p] == body && s[p] == '\n'
  {
  }

  /** In a written block, no fence starts between the body's first character
      and the newline after it. */
  lemma FormattedNoEarlyFence(tag: string, body: string)
    requires forall i :: !FenceAt(body, i)
    ensures var s := Formatted(tag, body); var start := 4 + |tag|;
      forall i :: start <= i <= start + |body| ==> !FenceAt(s, i)
  {
    var s := Formatted(tag, body);
    var start := 4 + |tag|;
    var p := start + |body|;
    FormattedLayout(tag, body);
    forall i | start <= i <= p
      ensures !FenceAt(s, i)
    {
      if i + 3 <= p {
        var j := i - start;
        assert s[start..p] == body;
        assert s[i] == body[j] && s[i + 1] == body[j + 1] && s[i + 2] == body[j + 2];
        assert !FenceAt(body, j);
      } else {
        assert s[p] != '`';
      }
    }
  }

  /** Dropping the whitespace before the closing fence gives the body back. */
  lemma BodyBeforeNewline(body: string)
    requires body == [] || !IsSpace(body[|body| - 1])
    ensures TrimRight(body + "\n") == body
  {
    var raw := body + "\n";
    if body == [] {
      assert raw == "\n";
      assert IsSpace(raw[0]);
    } else {
      assert AllSpace(raw[|body|..]) by {
        assert raw[|body|..] == "\n";
      }
      TrimRightAt(raw, |body|);
      assert raw[..|body|] == body;
    }
  }

  /** Round trip: a block written with an alphanumeric tag and a body that
      holds no fence and does not end in whitespace matches with exactly that
      tag and body. */
  lemma MatchFormatted(tag: string, body: string)
    requires forall i :: 0 <= i < |tag| ==> IsAsciiAlnum(tag[i])
    requires forall i :: !FenceAt(body, i)
    requires body == [] || !IsSpace(body[|body| - 1])
    ensures MatchCodeBlock(Formatted(tag, body)) == Some((tag, body))
  {
    FormattedLayout(tag, body);
    FormattedNoEarlyFence(tag, body);
    MatchLaidOut(Formatted(tag, body), tag, body);
  }

  /** `MatchFormatted` on any text laid out as a written block. */
  lemma MatchLaidOut(s: string, tag: string, body: string)
    requires forall i :: 0 <= i < |tag| ==> IsAsciiAlnum(tag[i])
    requires body == [] || !IsSpace(body[|body| - 1])
    requires var n := |tag|; var p := 4 + n + |body|;
      && |s| == p + 4
      && FenceAt(s, 0) && FenceAt(s, p + 1)
      && s[3..3 + n] == tag && s[3 + n] == '\n'
      && s[4 + n..p] == body && s[p] == '\n'
    requires forall i :: 4 + |tag| <= i <= 4 + |tag| + |body| ==> !FenceAt(s, i)
    ensures MatchCodeBlock(s) == Some((tag, body))
  {
    var n := |tag|;
    var start := 4 + n;
    var p := start + |body|;
    forall k | 3 <= k < 3 + n
      ensures IsAsciiAlnum(s[k])
    {
      assert s[k] == s[3..3 + n][k - 3];
    }
    AlnumEndAt(s, 3, 3 + n);
    FirstFenceAt(s, start, p + 1);
    MatchAt(s, 3 + n, p + 1);
    LineBody(s, start, p, body);
  }

  /** A body followed by a newline, right-trimmed, is the body. */
  lemma LineBody(s: string, a: nat, p: nat, body: string)
    requires p == a + |body| && p < |s| && s[a..p] == body && s[p] == '\n'
    requires body == [] || !IsSpace(body[|body| - 1])
    ensures TrimRight(s[a..p + 1]) == body
  {
    assert s[a..p + 1] == body + "\n" by {
      assert s[a..p + 1] == s[a..p] + [s[p]];
    }
    BodyBeforeNewline(body);
  }

  /** `"```py\nprint(1)\n```"` yields the tag "py" and the body "print(1)". */
  lemma MatchExample()
    ensures MatchCodeBlock(Formatted("py", "print(1)")) == Some(("py", "print(1)"))
  {
    var tag, body := "py", "print(1)";
    forall i
      ensures !FenceAt(body, i)
    {
      if 0 <= i < |body| {
        assert body[i] != '`';
      }
    }
    MatchFormatted(tag, body);
  }

  /** A tag with a character outside `[a-zA-Z0-9]`, such as "c++", makes the
      match fail. */
  lemma NonAlnumTagFails()
    ensures MatchCodeBlock("```c++\nint x;\n```") == None
  {
    var s := "```c++\nint x;\n```";
    assert AlnumEnd(s, 3) == 4;
  }
}
