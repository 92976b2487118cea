/** Python `str` operations the core relies on, over `string` (= `seq<char>`):
    `isspace`, `strip`, ASCII `lower`, `str(int)`, `replace` of one character,
    and `split` on a single-character separator. */
module Text {

  import opened Wrappers

  /** Python's `str.isspace()` on one character: the set CPython treats as
      whitespace, which is also what `\s` matches in a `str` pattern and what
      `str.strip()` removes. */
  predicate IsSpace(c: char) {
    var n := c as int;
    || 0x09 <= n <= 0x0D
    || 0x1C <= n <= 0x20
    || n == 0x85 || n == 0xA0 || n == 0x1680
    || 0x2000 <= n <= 0x200A
    || n == 0x2028 || n == 0x2029 || n == 0x202F || n == 0x205F || n == 0x3000
  }

  /** The class `[a-zA-Z0-9]`. */
  predicate IsAsciiAlnum(c: char) {
    ('a' <= c <= 'z') || ('A' <= c <= 'Z') || ('0' <= c <= '9')
  }

  predicate AllSpace(s: string) {
    forall i :: 0 <= i < |s| ==> IsSpace(s[i])
  }

  predicate StartsWith(s: string, prefix: string) {
    |prefix| <= |s| && s[..|prefix|] == prefix
  }

  /** `s.rstrip()`: the longest prefix of `s` that does not end in whitespace. */
  function TrimRight(s: string): (r: string)
    ensures |r| <= |s| && r == s[..|r|]
    ensures r == [] || !IsSpace(r[|r| - 1])
    ensures AllSpace(s[|r|..])
  {
    if s == [] || !IsSpace(s[|s| - 1]) then s
    else
      var r := TrimRight(s[..|s| - 1]);
      assert s[|r|..] == s[..|s| - 1][|r|..] + [s[|s| - 1]];
      r
  }

  /** `s.lstrip()`: the longest suffix of `s` that does not start with whitespace. */
  function TrimLeft(s: string): (r: string)
    ensures |r| <= |s| && r == s[|s| - |r|..]
    ensures r == [] || !IsSpace(r[0])
    ensures AllSpace(s[..|s| - |r|])
  {
    if s == [] || !IsSpace(s[0]) then s
    else
      var r := TrimLeft(s[1..]);
      assert s[..|s| - |r|] == [s[0]] + s[1..][..|s| - 1 - |r|];
      r
  }

  /** `s.strip()`: `s` without its leading and trailing whitespace. The
      result is empty exactly when `s` is all whitespace, and otherwise
      neither starts nor ends with whitespace. */
  function Strip(s: string): (r: string)
    ensures exists i :: InfixBetweenSpaces(s, r, i)
    ensures r == [] <==> AllSpace(s)
    ensures r != [] ==> !IsSpace(r[0]) && !IsSpace(r[|r| - 1])
    ensures |r| <= |s|
  {
    var t := TrimRight(s);
    var r := TrimLeft(t);
    assert r != [] ==> r[|r| - 1] == t[|t| - 1];
    TrimmedIsInfix(s, t, r);
    InfixEmptyIffAllSpace(s, r, |t| - |r|);
    r
  }

  /** `s` is `r` with a whitespace run of length `i` before it and a
      whitespace run after it. */
  predicate InfixBetweenSpaces(s: string, r: string, i: int) {
    0 <= i <= |s| - |r| && s[i..i + |r|] == r && AllSpace(s[..i]) && AllSpace(s[i + |r|..])
  }

  /** The left-trimmed right-trim of `s` sits in `s` between two whitespace
      runs. */
  lemma TrimmedIsInfix(s: string, t: string, r: string)
    requires t == TrimRight(s) && r == TrimLeft(t)
    ensures InfixBetweenSpaces(s, r, |t| - |r|)
  {
    var i := |t| - |r|;
    assert t == s[..|t|] && r == t[i..];
    assert s[i..i + |r|] == t[i..];
    assert s[..i] == t[..i];
    assert s[i + |r|..] == s[|t|..];
  }

  /** Where `strip(s)` sits in `s`. */
  lemma StripIsInfix(s: string)
    ensures InfixBetweenSpaces(s, Strip(s), |TrimRight(s)| - |Strip(s)|)
  {
    TrimmedIsInfix(s, TrimRight(s), Strip(s));
  }

  /** A text that sits between two whitespace runs and neither starts nor
      ends with whitespace is empty exactly when the whole is whitespace. */
  lemma InfixEmptyIffAllSpace(s: string, r: string, i: int)
    requires InfixBetweenSpaces(s, r, i)
    requires r == [] || !IsSpace(r[0])
    ensures r == [] <==> AllSpace(s)
  {
    if r == [] {
      forall k | 0 <= k < |s|
        ensures IsSpace(s[k])
      {
        if k < i {
          assert s[k] == s[..i][k];
        } else {
          assert s[k] == s[i..][k - i];
        }
      }
    } else {
      assert r[0] == s[i..i + |r|][0] == s[i];
    }
  }

  /** `rstrip()` keeps exactly the first `n` characters when the `n`th is
      not whitespace and all after it are. */
  lemma TrimRightAt(s: string, n: nat)
    requires 0 < n <= |s| && !IsSpace(s[n - 1]) && AllSpace(s[n..])
    ensures TrimRight(s) == s[..n]
  {
    var r := TrimRight(s);
    forall j | |r| <= j < |s|
      ensures IsSpace(s[j])
    {
      assert s[j] == s[|r|..][j - |r|];
    }
    forall j | n <= j < |s|
      ensures IsSpace(s[j])
    {
      assert s[j] == s[n..][j - n];
    }
    assert r != [] ==> r[|r| - 1] == s[|r| - 1];
  }

  /** `rstrip()` keeps at most `n` characters when all from the `n`th on
      are whitespace. */
  lemma TrimRightBound(s: string, n: nat)
    requires forall k :: n <= k < |s| ==> IsSpace(s[k])
    ensures |TrimRight(s)| <= n
  {
    var r := TrimRight(s);
    assert r == [] || !IsSpace(s[|r| - 1]) by {
      if r != [] {
        assert r[|r| - 1] == s[|r| - 1];
      }
    }
  }

  /** The first non-whitespace character of `s` is the first character of
      `strip(s)`. */
  lemma StripStartsAt(s: string, k: nat)
    requires k < |s| && AllSpace(s[..k]) && !IsSpace(s[k])
    ensures Strip(s) != [] && Strip(s)[0] == s[k]
  {
    StripIsInfix(s);
    InfixStartsAt(s, Strip(s), |TrimRight(s)| - |Strip(s)|, k);
  }

  lemma InfixStartsAt(s: string, r: string, i: int, k: nat)
    requires InfixBetweenSpaces(s, r, i) && (r == [] || !IsSpace(r[0]))
    requires k < |s| && AllSpace(s[..k]) && !IsSpace(s[k])
    ensures r != [] && r[0] == s[k]
  {
    forall j | 0 <= j < i
      ensures IsSpace(s[j])
    {
      assert s[j] == s[..i][j];
    }
    forall j | i + |r| <= j < |s|
      ensures IsSpace(s[j])
    {
      assert s[j] == s[i + |r|..][j - i - |r|];
    }
    assert i <= k < i + |r|;
    forall j | 0 <= j < k
      ensures IsSpace(s[j])
    {
      assert s[j] == s[..k][j];
    }
    assert r[0] == s[i..i + |r|][0] == s[i];
  }

  /** A string without whitespace at either end is its own `strip()`; in
      particular `strip` is idempotent. */
  lemma StripFixedPoint(s: string)
    requires s == [] || (!IsSpace(s[0]) && !IsSpace(s[|s| - 1]))
    ensures Strip(s) == s
  {
    assert TrimRight(s) == s;
  }

  lemma StripIdempotent(s: string)
    ensures Strip(Strip(s)) == Strip(s)
  {
    var t := Strip(s);
    assert t == [] || (!IsSpace(t[0]) && !IsSpace(t[|t| - 1]));
    StripFixedPoint(t);
  }

  /** ASCII `str.lower()` on one character. */
  function LowerChar(c: char): char {
    if 'A' <= c <= 'Z' then (c as int - 'A' as int + 'a' as int) as char else c
  }

  function Lower(s: string): (r: string)
    ensures |r| == |s|
    ensures forall i :: 0 <= i < |s| ==> r[i] == LowerChar(s[i])
  {
    seq(|s|, i requires 0 <= i < |s| => LowerChar(s[i]))
  }

  /** Lower-casing leaves no upper-case ASCII letter and is idempotent. */
  lemma LowerIsLowerCase(s: string)
    ensures forall i :: 0 <= i < |s| ==> !('A' <= Lower(s)[i] <= 'Z')
    ensures Lower(Lower(s)) == Lower(s)
  {
  }

  function DigitChar(d: nat): (c: char)
    requires d < 10
    ensures '0' <= c <= '9'
  {
    ('0' as int + d) as char
  }

  predicate AllDigits(s: string) {
    forall i :: 0 <= i < |s| ==> '0' <= s[i] <= '9'
  }

  /** The number a string of decimal digits denotes, most significant first. */
  function DigitsValue(s: string): nat
    requires AllDigits(s)
  {
    if s == [] then 0 else 10 * DigitsValue(s[..|s| - 1]) + (s[|s| - 1] as int - '0' as int)
  }

  /** Decimal digits of a natural number, most significant first: they denote
      `n`, and there is no leading zero. */
  function NatToString(n: nat): (r: string)
    ensures r != []
    ensures AllDigits(r) && DigitsValue(r) == n
    ensures |r| == 1 || r[0] != '0'
  {
    if n < 10 then [DigitChar(n)]
    else
      var front := NatToString(n / 10);
      var r := front + [DigitChar(n % 10)];
      assert r[..|r| - 1] == front;
      r
  }

  /** Python's `str(n)` for an `int`: a minus sign exactly when `n` is
      negative, followed by the digits of `|n|` without a leading zero. */
  function IntToString(n: int): (r: string)
    ensures r != []
    ensures (r[0] == '-') <==> n < 0
    ensures n < 0 ==> |r| >= 2 && AllDigits(r[1..]) && DigitsValue(r[1..]) == -n && r[1] != '0'
    ensures n >= 0 ==> AllDigits(r) && DigitsValue(r) == n && (|r| == 1 || r[0] != '0')
  {
    if n < 0 then
      var r := "-" + NatToString(-n);
      assert r[1..] == NatToString(-n);
      r
    else NatToString(n)
  }

  /** `s.replace(from, to)` where both are single characters. */
  function ReplaceChar(s: string, from: char, to: char): (r: string)
    ensures |r| == |s|
    ensures from != to ==> forall i :: 0 <= i < |r| ==> r[i] != from
    ensures forall i :: 0 <= i < |s| && s[i] != from ==> r[i] == s[i]
    ensures forall i :: 0 <= i < |s| && s[i] == from ==> r[i] == to
  {
    seq(|s|, i requires 0 <= i < |s| => if s[i] == from then to else s[i])
  }

  /** Position of the first `sep` in `s`, if any. */
  function IndexOf(s: string, sep: char): (r: Option<nat>)
    ensures r.Some? ==> r.value < |s| && s[r.value] == sep && sep !in s[..r.value]
    ensures r.None? ==> sep !in s
  {
    if s == [] then None
    else if s[0] == sep then Some(0)
    else match IndexOf(s[1..], sep)
      case None => None
      case Some(k) =>
        assert s[..k + 1] == [s[0]] + s[1..][..k];
        Some(k + 1)
  }

  /** `sep.join(parts)` for a one-character separator. */
  function JoinWith(parts: seq<string>, sep: char): string {
    if |parts| == 0 then []
    else if |parts| == 1 then parts[0]
    else parts[0] + [sep] + JoinWith(parts[1..], sep)
  }

  /** `s.split(sep)` for a one-character separator: never empty, no piece
      holds the separator, and joining the pieces back gives `s`. */
  function Split(s: string, sep: char): (parts: seq<string>)
    ensures |parts| >= 1
    ensures forall k :: 0 <= k < |parts| ==> sep !in parts[k]
    ensures JoinWith(parts, sep) == s
    decreases |s|
  {
    match IndexOf(s, sep)
    case None => [s]
    case Some(i) =>
      var rest := Split(s[i + 1..], sep);
      assert s == s[..i] + [sep] + s[i + 1..];
      [s[..i]] + rest
  }

  /** Splitting a join gives the parts back, when no part holds the separator. */
  lemma {:induction false} SplitJoin(parts: seq<string>, sep: char)
    requires |parts| >= 1
    requires forall k :: 0 <= k < |parts| ==> sep !in parts[k]
    ensures Split(JoinWith(parts, sep), sep) == parts
    decreases |parts|
  {
    if |parts| > 1 {
      var s := JoinWith(parts, sep);
      var tail := JoinWith(parts[1..], sep);
      assert s == parts[0] + [sep] + tail;
      assert s[..|parts[0]|] == parts[0];
      assert s[|parts[0]|] == sep;
      assert s[|parts[0]| + 1..] == tail;
      IndexOfAfterPrefix(parts[0], sep, tail);
      SplitJoin(parts[1..], sep);
    } else {
      assert JoinWith(parts, sep) == parts[0];
    }
  }

  lemma IndexOfAfterPrefix(head: string, sep: char, tail: string)
    requires sep !in head
    ensures IndexOf(head + [sep] + tail, sep) == Some(|head|)
  {
    var s := head + [sep] + tail;
    assert s[|head|] == sep;
    assert s[..|head|] == head;
  }
}
