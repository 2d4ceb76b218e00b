/** Character search in strings, as Python's `str.find` and `str.rfind`. */
module Strings {

  /** `s.find(c)`, except that a missing `c` gives `|s|` rather than -1. */
  function Find(s: string, c: char): (i: nat)
    ensures i <= |s|
    ensures i < |s| <==> c in s
    ensures i < |s| ==> s[i] == c
    ensures forall j :: 0 <= j < i ==> s[j] != c
  {
    if s == [] || s[0] == c then 0 else 1 + Find(s[1..], c)
  }

  /** `s.rfind(c)`: the index of the last `c`, or -1 when there is none. */
  function RFind(s: string, c: char): (r: int)
    ensures -1 <= r < |s|
    ensures r >= 0 ==> s[r] == c && c !in s[r + 1..]
    ensures r == -1 ==> c !in s
  {
    if s == [] then -1
    else if s[|s| - 1] == c then |s| - 1
    else
      var r := RFind(s[..|s| - 1], c);
      assert r >= 0 ==> s[r + 1..] == s[..|s| - 1][r + 1..] + [s[|s| - 1]];
      r
  }

  /** Every occurrence of `c` lies at or before the one `RFind` reports. */
  lemma {:induction false} RFindIsLast(s: string, c: char, j: int)
    requires 0 <= j < |s| && s[j] == c
    ensures j <= RFind(s, c)
  {
    if s[|s| - 1] != c {
      assert s[..|s| - 1][j] == c;
      RFindIsLast(s[..|s| - 1], c, j);
    }
  }
}
