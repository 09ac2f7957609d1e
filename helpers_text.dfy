/**
 * The string helpers of helpers.js: the `isWhitespace` validator, the
 * `String.prototype.trim` it relies on, and `shortenString`.
 * Strings are sequences of code points.
 */
module HelpersText {

  /** The ECMAScript WhiteSpace and LineTerminator code points: the class matched by
      a regular expression's `\s` and removed by `String.prototype.trim`. */
  predicate IsSpaceChar(c: char)
  {
    || c == '\t' || c == '\n' || c == '\U{000B}' || c == '\U{000C}' || c == '\r' || c == ' '
    || c == '\U{00A0}' || c == '\U{1680}' || ('\U{2000}' <= c <= '\U{200A}')
    || c == '\U{2028}' || c == '\U{2029}' || c == '\U{202F}' || c == '\U{205F}'
    || c == '\U{3000}' || c == '\U{FEFF}'
  }

  /** The `isWhitespace` validator, `/^\s*$/.test(str)`: every character is white space,
      so in particular the empty string passes. */
  function IsWhitespace(str: string): (b: bool)
    ensures b <==> forall i :: 0 <= i < |str| ==> IsSpaceChar(str[i])
  {
    if str == [] then true else IsSpaceChar(str[0]) && IsWhitespace(str[1..])
  }

  /** Drops leading white space. */
  function TrimStart(s: string): (r: string)
    ensures |r| <= |s| && r == s[|s| - |r|..]
    ensures forall i :: 0 <= i < |s| - |r| ==> IsSpaceChar(s[i])
    ensures r != [] ==> !IsSpaceChar(r[0])
  {
    if s != [] && IsSpaceChar(s[0]) then TrimStart(s[1..]) else s
  }

  /** Drops trailing white space. */
  function TrimEnd(s: string): (r: string)
    ensures |r| <= |s| && r == s[..|r|]
    ensures forall i :: |r| <= i < |s| ==> IsSpaceChar(s[i])
    ensures r != [] ==> !IsSpaceChar(r[|r| - 1])
  {
    if s != [] && IsSpaceChar(s[|s| - 1]) then TrimEnd(s[..|s| - 1]) else s
  }

  /** `String.prototype.trim`: the result is empty exactly for an all-white-space input,
      and otherwise starts and ends with a character that is not white space. */
  function Trim(s: string): (r: string)
    ensures |r| <= |s|
    ensures r == [] <==> IsWhitespace(s)
    ensures r != [] ==> !IsSpaceChar(r[0]) && !IsSpaceChar(r[|r| - 1])
  {
    TrimOfBlank(s);
    TrimEnd(TrimStart(s))
  }

  lemma TrimOfBlank(s: string)
    ensures TrimEnd(TrimStart(s)) == [] <==> IsWhitespace(s)
    ensures TrimEnd(TrimStart(s)) != [] ==> TrimEnd(TrimStart(s))[0] == TrimStart(s)[0]
  {
    var front := TrimStart(s);
    if front != [] {
      assert s[|s| - |front|] == front[0];
    }
  }

  /** `s.lastIndexOf(c)`: the last position holding `c`, or -1 when there is none. */
  function LastIndexOf(s: string, c: char): (k: int)
    ensures -1 <= k < |s|
    ensures k == -1 <==> c !in s
    ensures k >= 0 ==> s[k] == c && forall j :: k < j < |s| ==> s[j] != c
  {
    if s == [] then -1
    else if s[|s| - 1] == c then |s| - 1
    else
      var k := LastIndexOf(s[..|s| - 1], c);
      assert forall j :: 0 <= j < |s| - 1 ==> s[..|s| - 1][j] == s[j];
      assert c in s ==> c in s[..|s| - 1];
      k
  }

  /** The ellipsis "…" (U+2026) that `shortenString` appends. */
  const Ellipsis: char := '\U{2026}'

  /** A bound for `substring`, which treats negative arguments as 0. */
  function NonNegative(x: int): nat
  {
    if x < 0 then 0 else x
  }

  /** The part of an over-long trimmed string `t` that `shortenString` keeps: everything
      before the last space that lies below position `len`, or, when there is no such space,
      the first `len - 1` characters. */
  function WordPrefix(t: string, len: int): string
    requires |t| > len
  {
    var k := LastIndexOf(t[..NonNegative(len)], ' ');
    if k >= 0 then t[..k] else t[..NonNegative(len - 1)]
  }

  /** What `Helpers.shortenString(s, len)` returns. */
  function Shortened(s: string, len: int): string
  {
    var t := Trim(s);
    if t == [] then []
    else if |t| <= len then t
    else WordPrefix(t, len) + [Ellipsis]
  }

  /** `Helpers.shortenString`: trims, returns short strings unchanged, and otherwise
      cuts at word boundaries until the string is shorter than `len`, then adds "…". */
  method ShortenString(s: string, len: int) returns (r: string)
    ensures r == Shortened(s, len)
  {
    var t := Trim(s);
    if t == [] {
      return [];
    }
    if |t| <= len {
      return t;
    }
    var cur := t;
    while |cur| >= len
      invariant 0 < |cur| <= |t| && cur == t[..|cur|]
      invariant |cur| < |t| ==> t[|cur|] == ' '
      invariant forall j :: |cur| < j < |t| && j < len ==> t[j] != ' '
      decreases |cur|
    {
      if ' ' !in cur {
        // s.indexOf(' ') === -1: no word boundary is left, so cut hard
        WordPrefixHardCut(t, len, cur);
        cur := cur[..NonNegative(len - 1)];
        r := cur + [Ellipsis];
        return;
      }
      CutAtLastSpace(t, len, cur);
      cur := cur[..LastIndexOf(cur, ' ')];
    }
    WordPrefixAtSpace(t, len, |cur|);
    r := cur + [Ellipsis];
  }

  /** One step of the loop: cutting at the last space keeps a non-empty prefix of `t` that
      stops at a space, with no space between the cut and `len`. */
  lemma CutAtLastSpace(t: string, len: int, cur: string)
    requires 0 < |cur| <= |t| && cur == t[..|cur|] && t[0] != ' '
    requires len <= |cur| && ' ' in cur
    ensures var next := cur[..LastIndexOf(cur, ' ')];
      && 0 < |next| < |cur| && next == t[..|next|] && t[|next|] == ' '
      && forall j :: |next| < j < |t| && j < len ==> t[j] != ' '
  {
    var k := LastIndexOf(cur, ' ');
    assert cur[0] == t[0];
    assert forall j :: k < j < |cur| ==> cur[j] == t[j];
  }

  lemma WordPrefixAtSpace(t: string, len: int, n: nat)
    requires 0 < n < len < |t| && t[n] == ' '
    requires forall j :: n < j < len ==> t[j] != ' '
    ensures WordPrefix(t, len) == t[..n]
  {
    var below := t[..len];
    assert below[n] == ' ';
    assert forall j :: n < j < len ==> below[j] != ' ';
  }

  lemma WordPrefixHardCut(t: string, len: int, cur: string)
    requires |t| > len && len <= |cur| <= |t| && cur == t[..|cur|] && ' ' !in cur
    ensures WordPrefix(t, len) == cur[..NonNegative(len - 1)]
  {
    assert t[..NonNegative(len)] == cur[..NonNegative(len)];
  }

  /** With `len >= 1` the result is never longer than `len`. */
  lemma ShortenedWithinLength(s: string, len: int)
    requires len >= 1
    ensures |Shortened(s, len)| <= len
  {
    var t := Trim(s);
    if t != [] && |t| > len {
      WordPrefixShape(t, len);
    }
  }

  /** An over-long input is cut to `p + "…"`, where `p` is a prefix of the trimmed input
      shorter than `len`, non-empty once `len >= 2`, and either the hard cut of `len - 1`
      characters or the text before the last space below `len`, and the hard cut only
      when no space lies below `len`. */
  lemma ShortenedIsWordPrefix(s: string, len: int)
    requires len >= 1 && |Trim(s)| > len
    ensures var t, r := Trim(s), Shortened(s, len);
      && |r| >= 1 && r[|r| - 1] == Ellipsis
      && var p := r[..|r| - 1];
      && p == t[..|p|] && |p| < len
      && (len >= 2 ==> p != [])
      && (|p| == len - 1 || t[|p|] == ' ')
      && (' ' in t[..len] ==> t[|p|] == ' ')
      && forall j :: |p| < j < len ==> t[j] != ' '
  {
    var t := Trim(s);
    var p := WordPrefix(t, len);
    WordPrefixShape(t, len);
    var r := p + [Ellipsis];
    assert Shortened(s, len) == r;
    assert r[..|r| - 1] == p;
  }

  lemma WordPrefixShape(t: string, len: int)
    requires 1 <= len < |t| && t[0] != ' '
    ensures var p := WordPrefix(t, len);
      && p == t[..|p|] && |p| < len
      && (len >= 2 ==> p != [])
      && (|p| == len - 1 || t[|p|] == ' ')
      && (' ' in t[..len] ==> t[|p|] == ' ')
      && forall j :: |p| < j < len ==> t[j] != ' '
  {
    var below := t[..len];
    var k := LastIndexOf(below, ' ');
    if k >= 0 {
      assert k != 0 by {
        assert below[0] == t[0];
      }
      assert forall j :: k < j < len ==> below[j] == t[j];
    } else {
      assert forall j :: 0 <= j < len ==> below[j] == t[j];
    }
  }
}
