/**
 * String and exception helpers of lo99ing/misc.py:18-63: truncation,
 * joining lines, one-line rendering, exception attributes and the
 * "ClassName - text" rendering of an exception.
 */
module Misc {
  import opened Wrappers
  import opened Strings

  /** Python's `x[:k]`: a negative bound counts from the end; bounds are clipped to the string. */
  function SlicePrefix(x: string, k: int): (r: string)
    ensures k >= 0 ==> r == x[..if k <= |x| then k else |x|]
    ensures k < 0 ==> r == x[..if |x| + k >= 0 then |x| + k else 0]
  {
    if k >= 0 then x[..if k <= |x| then k else |x|]
    else x[..if |x| + k >= 0 then |x| + k else 0]
  }

  const Ellipsis: string := " ..."

  /** `truncate(x, maxlen)`. */
  function Truncate(x: string, maxlen: int): (r: string)
    ensures |x| <= maxlen ==> r == x
    ensures |x| > maxlen >= 4 ==> r == x[..maxlen - 4] + Ellipsis && |r| == maxlen
    ensures |x| > maxlen ==> exists k :: 0 <= k <= |x| && r == x[..k] + Ellipsis
  {
    if |x| > maxlen then
      var head := SlicePrefix(x, maxlen - |Ellipsis|);
      assert head == x[..|head|];
      head + Ellipsis
    else x
  }

  /** With a bound below 4, the slice bound goes negative and counts from the end of the string. */
  lemma TruncateSmallBound(x: string, maxlen: int)
    requires |x| > maxlen && maxlen < 4 && |x| + maxlen >= 4
    ensures Truncate(x, maxlen) == x[..|x| + maxlen - 4] + Ellipsis
    ensures |Truncate(x, maxlen)| == |x| + maxlen
  {
  }

  /** Python's `str.isspace` characters, which `str.strip()` removes. */
  predicate IsSpace(c: char) {
    var n := c as int;
    || 9 <= n <= 13 || 28 <= n <= 32
    || n in {0x85, 0xA0, 0x1680, 0x2028, 0x2029, 0x202F, 0x205F, 0x3000}
    || 0x2000 <= n <= 0x200A
  }

  function StripLeft(s: string): (r: string)
    ensures |r| <= |s| && r == s[|s| - |r|..]
    ensures r != [] ==> !IsSpace(r[0])
    ensures forall i :: 0 <= i < |s| - |r| ==> IsSpace(s[i])
  {
    if s != [] && IsSpace(s[0]) then StripLeft(s[1..]) else s
  }

  function StripRight(s: string): (r: string)
    ensures |r| <= |s| && r == s[..|r|]
    ensures r != [] ==> !IsSpace(r[|r| - 1])
    ensures forall i :: |r| <= i < |s| ==> IsSpace(s[i])
  {
    if s != [] && IsSpace(s[|s| - 1]) then StripRight(s[..|s| - 1]) else s
  }

  /** Stripping both ends takes a slice of `s`. */
  lemma StripSlice(s: string)
    ensures var i, r := |s| - |StripLeft(s)|, StripRight(StripLeft(s));
            i + |r| <= |s| && r == s[i..i + |r|]
  {
    var left := StripLeft(s);
    var r := StripRight(left);
    var i := |s| - |left|;
    calc {
      r;
      left[..|r|];
      s[i..][..|r|];
      s[i..i + |r|];
    }
  }

  /** What stripping drops after the slice is whitespace. */
  lemma StripTrailing(s: string)
    ensures var i, r := |s| - |StripLeft(s)|, StripRight(StripLeft(s));
            forall k :: i + |r| <= k < |s| ==> IsSpace(s[k])
  {
    var left := StripLeft(s);
    var r := StripRight(left);
    var i := |s| - |left|;
    forall k | i + |r| <= k < |s|
      ensures IsSpace(s[k])
    {
      assert s[k] == left[k - i];
    }
  }

  /** `r` is the slice of `s` that starts at `i`, and `s` holds only whitespace outside it. */
  predicate SliceBetweenSpaces(s: string, i: int, r: string) {
    0 <= i && i + |r| <= |s| && r == s[i..i + |r|] &&
    (forall k :: 0 <= k < i ==> IsSpace(s[k])) && (forall k :: i + |r| <= k < |s| ==> IsSpace(s[k]))
  }

  /** Stripping both ends leaves a slice with whitespace only outside it and none at its ends. */
  lemma StripBothEnds(s: string)
    ensures var r := StripRight(StripLeft(s));
            SliceBetweenSpaces(s, |s| - |StripLeft(s)|, r) && (r != [] ==> !IsSpace(r[0]) && !IsSpace(r[|r| - 1]))
  {
    var left := StripLeft(s);
    var r := StripRight(left);
    StripSlice(s);
    StripTrailing(s);
    if r != [] {
      assert r[0] == left[0];
    }
  }

  /** `str.strip()`: the slice of `s` between its leading and its trailing whitespace. */
  function Strip(s: string): (r: string)
    ensures SliceBetweenSpaces(s, |s| - |StripLeft(s)|, r)
    ensures r != [] ==> !IsSpace(r[0]) && !IsSpace(r[|r| - 1])
  {
    StripBothEnds(s);
    StripRight(StripLeft(s))
  }

  /**
   * `str.splitlines()` for `\n` line ends: no line for the empty string and
   * no empty last line after a final newline.
   */
  function SplitLines(s: string): (r: seq<string>)
    ensures forall k :: 0 <= k < |r| ==> '\n' !in r[k]
    ensures s == [] <==> r == []
    decreases |s|
  {
    if s == [] then []
    else
      var i := Find(s, '\n');
      if i == |s| then [s] else [s[..i]] + SplitLines(s[i + 1..])
  }

  /** `sep.join(parts)`. */
  function Join(parts: seq<string>, sep: string): (r: string)
    ensures parts == [] ==> r == []
  {
    if parts == [] then []
    else if |parts| == 1 then parts[0]
    else parts[0] + sep + Join(parts[1..], sep)
  }

  function StripAll(lines: seq<string>): (r: seq<string>)
    ensures |r| == |lines|
    ensures forall k :: 0 <= k < |r| ==> r[k] == Strip(lines[k])
  {
    if lines == [] then [] else [Strip(lines[0])] + StripAll(lines[1..])
  }

  /** `join_lines(s)`: the stripped lines of `s`, joined by single spaces. */
  function JoinLines(s: string): string {
    Join(StripAll(SplitLines(s)), " ")
  }

  lemma StripKeepsNoNewline(s: string)
    requires '\n' !in s
    ensures '\n' !in Strip(s)
  {
    var i, j :| 0 <= i <= j <= |s| && Strip(s) == s[i..j];
    forall k | 0 <= k < j - i ensures Strip(s)[k] != '\n' {
      assert Strip(s)[k] == s[i + k];
    }
  }

  lemma {:induction false} JoinWithoutNewline(parts: seq<string>, sep: string)
    requires '\n' !in sep
    requires forall k :: 0 <= k < |parts| ==> '\n' !in parts[k]
    ensures '\n' !in Join(parts, sep)
  {
    if |parts| > 1 {
      JoinWithoutNewline(parts[1..], sep);
      assert Join(parts, sep) == parts[0] + sep + Join(parts[1..], sep);
    }
  }

  /** The output of `join_lines` never contains a newline. */
  lemma JoinLinesHasNoNewline(s: string)
    ensures '\n' !in JoinLines(s)
  {
    var lines := SplitLines(s);
    var stripped := StripAll(lines);
    forall k | 0 <= k < |stripped| ensures '\n' !in stripped[k] {
      StripKeepsNoNewline(lines[k]);
    }
    JoinWithoutNewline(stripped, " ");
  }

  /** A string without newlines is one line: `join_lines` only strips it. */
  lemma JoinLinesOfOneLine(s: string)
    requires '\n' !in s
    ensures JoinLines(s) == Strip(s)
  {
    if s != [] {
      assert Find(s, '\n') == |s|;
    } else {
      assert StripLeft(s) == s;
    }
  }

  /** Splitting the lines joined by newlines gives the lines back (the last one non-empty). */
  lemma {:induction false} SplitJoinRoundTrip(lines: seq<string>)
    requires lines != [] && lines[|lines| - 1] != []
    requires forall k :: 0 <= k < |lines| ==> '\n' !in lines[k]
    ensures SplitLines(Join(lines, "\n")) == lines
  {
    if |lines| == 1 {
      assert Find(lines[0], '\n') == |lines[0]|;
    } else {
      SplitJoinStep(lines);
      SplitJoinRoundTrip(lines[1..]);
      assert lines == [lines[0]] + lines[1..];
    }
  }

  /** Splitting joined lines takes off the first line and splits the join of the others. */
  lemma SplitJoinStep(lines: seq<string>)
    requires |lines| > 1 && '\n' !in lines[0]
    ensures SplitLines(Join(lines, "\n")) == [lines[0]] + SplitLines(Join(lines[1..], "\n"))
  {
    assert Join(lines, "\n") == lines[0] + "\n" + Join(lines[1..], "\n");
    SplitAfterLine(lines[0], Join(lines[1..], "\n"));
  }

  /** A line without newline, then a newline and the rest, splits into that line and the rest's lines. */
  lemma SplitAfterLine(line: string, rest: string)
    requires '\n' !in line
    ensures SplitLines(line + "\n" + rest) == [line] + SplitLines(rest)
  {
    var s := line + "\n" + rest;
    assert forall j :: 0 <= j < |line| ==> s[j] == line[j];
    assert s[|line|] == '\n';
    assert Find(s, '\n') == |line|;
    assert s[..|line|] == line;
    assert s[|line| + 1..] == rest;
  }

  /** `oneline(s, maxlen)`, with the value already rendered by `str`. */
  function Oneline(s: string, maxlen: int): (r: string)
    ensures '\n' !in r
  {
    JoinLinesHasNoNewline(Truncate(s, maxlen));
    JoinLines(Truncate(s, maxlen))
  }

  /** `truncate`'s default bound. */
  const DefaultMaxLen: int := 1000

  /**
   * An exception object: its class name, whether it derives from
   * `Exception` (and not only `BaseException`), what `str(e)` and `repr(e)`
   * give (`None` when they raise), and `vars(e)` in insertion order with
   * each value rendered by `str`.
   */
  datatype Exc = Exc(
    className: string,
    isException: bool,
    strText: Option<string>,
    reprText: Option<string>,
    attrs: seq<(string, string)>)

  /** The attribute names `get_exception_kwargs` keeps. */
  predicate IsKeptAttribute(attr: string) {
    !(|attr| > 0 && attr[0] == '_') && attr != "args" && attr != "message"
  }

  /** `get_exception_kwargs(e)` over `vars(e)`: kept attributes, values and order unchanged. */
  function ExceptionKwargs(attrs: seq<(string, string)>): (r: seq<(string, string)>)
    ensures |r| <= |attrs|
    ensures forall k :: 0 <= k < |r| ==> IsKeptAttribute(r[k].0) && r[k] in attrs
    ensures forall k :: 0 <= k < |attrs| && IsKeptAttribute(attrs[k].0) ==> attrs[k] in r
  {
    if attrs == [] then []
    else
      var rest := ExceptionKwargs(attrs[1..]);
      assert forall p :: p in attrs[1..] ==> p in attrs;
      assert forall k :: 1 <= k < |attrs| ==> attrs[k] == attrs[1..][k - 1];
      if IsKeptAttribute(attrs[0].0) then [attrs[0]] + rest else rest
  }

  /** No attributes give no keyword arguments, and a single attribute is kept exactly when its name is. */
  lemma ExceptionKwargsOfOne(p: (string, string))
    ensures ExceptionKwargs([]) == []
    ensures ExceptionKwargs([p]) == if IsKeptAttribute(p.0) then [p] else []
  {
    assert [p][1..] == [];
  }

  /**
   * Filtering works piece by piece, so the kept attributes keep the order of
   * `vars(e)` and none is repeated or invented.
   */
  lemma {:induction false} ExceptionKwargsAppend(a: seq<(string, string)>, b: seq<(string, string)>)
    ensures ExceptionKwargs(a + b) == ExceptionKwargs(a) + ExceptionKwargs(b)
    decreases |a|
  {
    if a == [] {
      assert a + b == b;
    } else {
      assert (a + b)[1..] == a[1..] + b;
      assert (a + b)[0] == a[0];
      ExceptionKwargsAppend(a[1..], b);
    }
  }

  const FormattingFailed: string := "(error formatting exception)"

  /** The text part of `format_exception`: `str(e)`, else `repr(e)`, else a fixed message. */
  function ExceptionText(e: Exc): (r: string)
    ensures e.strText.Some? ==> r == e.strText.value
    ensures e.strText.None? && e.reprText.Some? ==> r == e.reprText.value
    ensures e.strText.None? && e.reprText.None? ==> r == FormattingFailed
  {
    match e.strText
    case Some(t) => t
    case None => if e.reprText.Some? then e.reprText.value else FormattingFailed
  }

  /** `format_exception(e)`: the class name, " - ", then the text. */
  function FormatException(e: Exc): (r: string)
    ensures |r| == |e.className| + 3 + |ExceptionText(e)|
    ensures r[..|e.className|] == e.className
    ensures r[|e.className|..|e.className| + 3] == " - "
    ensures r[|e.className| + 3..] == ExceptionText(e)
  {
    e.className + " - " + ExceptionText(e)
  }

  /** Everything before the first space. */
  function FirstWord(s: string): (r: string)
    ensures |r| <= |s| && r == s[..|r|]
    ensures ' ' !in r
    ensures |r| < |s| ==> s[|r|] == ' '
  {
    if s == [] || s[0] == ' ' then [] else [s[0]] + FirstWord(s[1..])
  }

  /** A class name (which has no space) is recovered from the rendered exception. */
  lemma FormatExceptionClassName(e: Exc)
    requires ' ' !in e.className
    ensures FirstWord(FormatException(e)) == e.className
  {
    var r := FormatException(e);
    var w := FirstWord(r);
    var n := |e.className|;
    assert r[n] == ' ';
    assert forall j :: 0 <= j < n ==> r[j] == e.className[j];
    assert |w| == n;
    assert w == r[..n];
  }
}
