/**
 * The few pieces of Python's `str` that the reply splitter relies on:
 * `str.isspace`, `str.strip()` with no argument, `str.find` and `str.rfind`
 * for a single character (both return -1 when the character is absent).
 */
module Text {

  /** The characters for which Python's `str.isspace()` holds: those whose
      bidirectional class is WS, B or S, or whose category is Zs. */
  const SpaceChars: set<char> :=
    {'\t', '\n', '\U{0B}', '\U{0C}', '\r', '\U{1C}', '\U{1D}', '\U{1E}', '\U{1F}', ' ',
     '\U{85}', '\U{A0}', '\U{1680}', '\U{2000}', '\U{2001}', '\U{2002}', '\U{2003}',
     '\U{2004}', '\U{2005}', '\U{2006}', '\U{2007}', '\U{2008}', '\U{2009}', '\U{200A}',
     '\U{2028}', '\U{2029}', '\U{202F}', '\U{205F}', '\U{3000}'}

  predicate IsSpace(c: char) {
    c in SpaceChars
  }

  /** The first index at or after `i` that holds a non-whitespace character,
      or `|s|`. */
  function SkipSpace(s: string, i: nat): (r: nat)
    requires i <= |s|
    ensures i <= r <= |s|
    ensures forall k :: i <= k < r ==> IsSpace(s[k])
    ensures r < |s| ==> !IsSpace(s[r])
    decreases |s| - i
  {
    if i < |s| && IsSpace(s[i]) then SkipSpace(s, i + 1) else i
  }

  /** One past the last index before `j` that holds a non-whitespace
      character, or 0. */
  function SkipSpaceBack(s: string, j: nat): (r: nat)
    requires j <= |s|
    ensures r <= j
    ensures forall k :: r <= k < j ==> IsSpace(s[k])
    ensures r > 0 ==> !IsSpace(s[r - 1])
  {
    if j > 0 && IsSpace(s[j - 1]) then SkipSpaceBack(s, j - 1) else j
  }

  /** `s.strip()`: the slice of `s` between its leading and its trailing
      whitespace; empty when `s` is all whitespace. */
  function Strip(s: string): (r: string)
    ensures |r| <= |s|
    ensures r != [] ==> !IsSpace(r[0]) && !IsSpace(r[|r| - 1])
  {
    var a, b := SkipSpace(s, 0), SkipSpaceBack(s, |s|);
    if a < b then s[a..b] else []
  }

  /** A string that neither starts nor ends with whitespace is left alone. */
  lemma StripTrimmed(s: string)
    requires s != [] ==> !IsSpace(s[0]) && !IsSpace(s[|s| - 1])
    ensures Strip(s) == s
  {
    assert s == s[0..|s|];
  }

  /** A string that opens with `{` and closes with `}` is left alone. */
  lemma BracedIsTrimmed(s: string)
    requires 2 <= |s| && s[0] == '{' && s[|s| - 1] == '}'
    ensures Strip(s) == s
  {
    assert !IsSpace('{') && !IsSpace('}');
    StripTrimmed(s);
  }

  /** `s.strip()` is a slice of `s`, and only whitespace is cut off on
      either side. */
  lemma StripIsSlice(s: string)
    ensures var a := SkipSpace(s, 0);
      a + |Strip(s)| <= |s| && Strip(s) == s[a..a + |Strip(s)|] &&
      (forall k :: 0 <= k < a ==> IsSpace(s[k])) &&
      (forall k :: a + |Strip(s)| <= k < |s| ==> IsSpace(s[k]))
  {
  }

  /** `s.find(c)`: the index of the first `c`, or -1. */
  function Find(s: string, c: char): (r: int)
    ensures -1 <= r < |s|
    ensures r == -1 <==> c !in s
    ensures r >= 0 ==> s[r] == c && forall k :: 0 <= k < r ==> s[k] != c
  {
    FindFrom(s, c, 0)
  }

  /** The first `c` at or after index `i`, or -1. */
  function FindFrom(s: string, c: char, i: nat): (r: int)
    requires i <= |s|
    ensures r == -1 || i <= r < |s|
    ensures r == -1 ==> forall k :: i <= k < |s| ==> s[k] != c
    ensures r >= 0 ==> s[r] == c && forall k :: i <= k < r ==> s[k] != c
    decreases |s| - i
  {
    if i == |s| then -1
    else if s[i] == c then i
    else FindFrom(s, c, i + 1)
  }

  /** `s.rfind(c)`: the index of the last `c`, or -1. */
  function RFind(s: string, c: char): (r: int)
    ensures -1 <= r < |s|
    ensures r == -1 <==> c !in s
    ensures r >= 0 ==> s[r] == c && forall k :: r < k < |s| ==> s[k] != c
  {
    RFindBefore(s, c, |s|)
  }

  /** The last `c` strictly before index `j`, or -1. */
  function RFindBefore(s: string, c: char, j: nat): (r: int)
    requires j <= |s|
    ensures -1 <= r < j
    ensures r == -1 ==> forall k :: 0 <= k < j ==> s[k] != c
    ensures r >= 0 ==> s[r] == c && forall k :: r < k < j ==> s[k] != c
  {
    if j == 0 then -1
    else if s[j - 1] == c then j - 1
    else RFindBefore(s, c, j - 1)
  }

  /** Splitting at the first `c`, when the part before it holds no `c`,
      gives back that part and what follows the `c`. */
  lemma SplitAtFirst(head: string, c: char, tail: string)
    requires c !in head
    ensures Find(head + [c] + tail, c) == |head|
    ensures (head + [c] + tail)[..|head|] == head
    ensures (head + [c] + tail)[|head| + 1..] == tail
  {
    var s := head + [c] + tail;
    assert s[|head|] == c;
    assert forall k :: 0 <= k < |head| ==> s[k] == head[k];
  }
}
