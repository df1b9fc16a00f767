/** The .NET string primitives the dialogue system leans on, modelled on
    `seq<char>`: `char.IsWhiteSpace`, `char.IsLetterOrDigit`, `string.Trim`,
    `string.Split('\n')` and integer formatting.  The Unicode character
    classes are approximated by their ASCII members. */
module Strings {

  /** ASCII members of `char.IsWhiteSpace`: space, tab, line feed, vertical
      tab, form feed and carriage return. */
  predicate IsWhiteSpace(c: char) {
    c == ' ' || c == '\t' || c == '\n' || c == '\U{B}' || c == '\U{C}' || c == '\r'
  }

  /** ASCII members of `char.IsLetterOrDigit`. */
  predicate IsLetterOrDigit(c: char) {
    ('a' <= c <= 'z') || ('A' <= c <= 'Z') || ('0' <= c <= '9')
  }

  predicate AllWhiteSpace(s: string) {
    forall i :: 0 <= i < |s| ==> IsWhiteSpace(s[i])
  }

  /** The first position at or after `i` that holds no white space. */
  function SkipWhiteSpace(s: string, i: nat): (k: nat)
    requires i <= |s|
    ensures i <= k <= |s| && (k < |s| ==> !IsWhiteSpace(s[k]))
    decreases |s| - i
  {
    if i == |s| || !IsWhiteSpace(s[i]) then i else SkipWhiteSpace(s, i + 1)
  }

  /** Everything `SkipWhiteSpace` skips is white space. */
  lemma {:induction false} SkipWhiteSpaceSkips(s: string, i: nat)
    requires i <= |s|
    ensures forall m :: i <= m < SkipWhiteSpace(s, i) ==> IsWhiteSpace(s[m])
    decreases |s| - i
  {
    if i < |s| && IsWhiteSpace(s[i]) {
      SkipWhiteSpaceSkips(s, i + 1);
    }
  }

  /** The end of `s[lo..j]` once its trailing white space is dropped. */
  function DropWhiteSpace(s: string, lo: nat, j: nat): (k: nat)
    requires lo <= j <= |s|
    ensures lo <= k <= j && (k > lo ==> !IsWhiteSpace(s[k - 1]))
    decreases j
  {
    if j == lo || !IsWhiteSpace(s[j - 1]) then j else DropWhiteSpace(s, lo, j - 1)
  }

  /** Everything `DropWhiteSpace` drops is white space. */
  lemma {:induction false} DropWhiteSpaceDrops(s: string, lo: nat, j: nat)
    requires lo <= j <= |s|
    ensures forall m :: DropWhiteSpace(s, lo, j) <= m < j ==> IsWhiteSpace(s[m])
    decreases j
  {
    if j > lo && IsWhiteSpace(s[j - 1]) {
      DropWhiteSpaceDrops(s, lo, j - 1);
    }
  }

  /** `string.Trim()`: `s` without its leading and trailing white space. */
  function Trim(s: string): (r: string)
    ensures |r| <= |s|
    ensures r == [] || (!IsWhiteSpace(r[0]) && !IsWhiteSpace(r[|r| - 1]))
  {
    var lo := SkipWhiteSpace(s, 0);
    var hi := DropWhiteSpace(s, lo, |s|);
    assert hi > lo ==> s[lo..hi][0] == s[lo] && s[lo..hi][hi - lo - 1] == s[hi - 1];
    s[lo..hi]
  }

  /** Trimming keeps a contiguous slice of `s`, starting at `i`, and
      everything it cuts off on either side is white space. */
  lemma TrimIsSlice(s: string) returns (i: nat)
    ensures i + |Trim(s)| <= |s| && s[i..i + |Trim(s)|] == Trim(s)
    ensures AllWhiteSpace(s[..i]) && AllWhiteSpace(s[i + |Trim(s)|..])
  {
    i := SkipWhiteSpace(s, 0);
    var hi := DropWhiteSpace(s, i, |s|);
    SkipWhiteSpaceSkips(s, 0);
    DropWhiteSpaceDrops(s, i, |s|);
    assert Trim(s) == s[i..hi];
    assert forall m :: 0 <= m < i ==> s[..i][m] == s[m];
    assert forall m :: 0 <= m < |s| - hi ==> s[hi..][m] == s[hi + m];
  }

  /** Skipping white space from `i` stops at the first other character. */
  lemma {:induction false} SkipWhiteSpaceStops(s: string, i: nat, k: nat)
    requires i <= k < |s| && !IsWhiteSpace(s[k])
    requires forall m :: i <= m < k ==> IsWhiteSpace(s[m])
    ensures SkipWhiteSpace(s, i) == k
    decreases k - i
  {
    if i < k {
      SkipWhiteSpaceStops(s, i + 1, k);
    }
  }

  /** Dropping white space before `j` stops after the last other character. */
  lemma {:induction false} DropWhiteSpaceStops(s: string, lo: nat, j: nat, k: nat)
    requires lo < k <= j <= |s| && !IsWhiteSpace(s[k - 1])
    requires forall m :: k <= m < j ==> IsWhiteSpace(s[m])
    ensures DropWhiteSpace(s, lo, j) == k
    decreases j - k
  {
    if k < j {
      DropWhiteSpaceStops(s, lo, j - 1, k);
    }
  }

  /** A word with white space on either side trims to the word. */
  lemma TrimPadded(pre: string, word: string, post: string)
    requires AllWhiteSpace(pre) && AllWhiteSpace(post)
    requires word != [] && !IsWhiteSpace(word[0]) && !IsWhiteSpace(word[|word| - 1])
    ensures Trim(pre + word + post) == word
  {
    var s := pre + word + post;
    var lo, hi := |pre|, |pre| + |word|;
    assert s[lo] == word[0] && s[hi - 1] == word[|word| - 1];
    assert forall m :: 0 <= m < lo ==> s[m] == pre[m];
    assert forall m :: hi <= m < |s| ==> s[m] == post[m - hi];
    SkipWhiteSpaceStops(s, 0, lo);
    DropWhiteSpaceStops(s, lo, |s|, hi);
    assert s[lo..hi] == word;
  }

  /** A string trims to nothing exactly when it is white space only. */
  lemma TrimEmptyIffWhiteSpace(s: string)
    ensures Trim(s) == [] <==> AllWhiteSpace(s)
  {
    var lo := SkipWhiteSpace(s, 0);
    var hi := DropWhiteSpace(s, lo, |s|);
    SkipWhiteSpaceSkips(s, 0);
    DropWhiteSpaceDrops(s, lo, |s|);
  }

  /** The decimal digit for `d`; the digit's code less that of `0` gives
      `d` back. */
  function DigitChar(d: nat): (c: char)
    requires d < 10
    ensures '0' <= c <= '9' && c as int - '0' as int == d
  {
    ('0' as int + d) as char
  }

  /** Decimal rendering of a non-negative integer, as string interpolation
      writes it. */
  function NatToString(n: nat): (r: string)
    ensures |r| >= 1
    ensures forall i :: 0 <= i < |r| ==> '0' <= r[i] <= '9'
    decreases n
  {
    if n < 10 then [DigitChar(n)] else NatToString(n / 10) + [DigitChar(n % 10)]
  }

  /** `s.Split(sep)`: the pieces between separators, in order, empty pieces
      kept; there is always at least one piece. */
  function SplitOn(s: string, sep: char): (r: seq<string>)
    ensures |r| >= 1
    ensures forall k :: 0 <= k < |r| ==> sep !in r[k]
  {
    if s == [] then [[]]
    else
      var rest := SplitOn(s[1..], sep);
      if s[0] == sep then [[]] + rest
      else [[s[0]] + rest[0]] + rest[1..]
  }

  /** The inverse of `SplitOn`: the pieces glued back with the separator. */
  function JoinWith(parts: seq<string>, sep: char): string
    requires |parts| >= 1
  {
    if |parts| == 1 then parts[0] else parts[0] + [sep] + JoinWith(parts[1..], sep)
  }

  /** Splitting a script into lines loses nothing: joining the lines with
      the separator gives back the script. */
  lemma {:induction false} SplitOnJoins(s: string, sep: char)
    ensures JoinWith(SplitOn(s, sep), sep) == s
    decreases |s|
  {
    if s != [] {
      SplitOnJoins(s[1..], sep);
      var rest := SplitOn(s[1..], sep);
      if s[0] == sep {
        assert SplitOn(s, sep)[1..] == rest;
      } else {
        var r := SplitOn(s, sep);
        if |rest| == 1 {
          assert r == [[s[0]] + rest[0]];
        } else {
          assert r[1..] == rest[1..];
          assert JoinWith(rest, sep) == rest[0] + [sep] + JoinWith(rest[1..], sep);
        }
      }
    }
  }
}
