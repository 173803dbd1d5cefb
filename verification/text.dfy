/**
 * Character classes and string operations that the extraction code borrows from
 * Python: `str.isspace` (which is also what `re`'s `\s` uses), `\d`, `\w`,
 * `str.lower`, `in` on strings, `str.replace` with a one-character pattern, and the
 * whitespace stripping that `float()` does before reading a number.
 */
module Text {

  /** Python's `str.isspace()`: exactly the Unicode whitespace set used by `\s`. */
  predicate IsSpace(c: char) {
    || ('\t' <= c <= '\r')
    || ('\U{001C}' <= c <= '\U{001F}')
    || c == ' ' || c == '\U{0085}' || c == '\U{00A0}' || c == '\U{1680}'
    || ('\U{2000}' <= c <= '\U{200A}')
    || c == '\U{2028}' || c == '\U{2029}' || c == '\U{202F}' || c == '\U{205F}' || c == '\U{3000}'
  }

  /**
   * The characters `float()` strips from both ends of its argument. CPython first turns
   * every non-ASCII `str.isspace` character into a space and then strips only tab, line
   * feed, vertical tab, form feed, carriage return and space. The ASCII separators
   * U+001C to U+001F are `str.isspace` characters that stay, and make `float()` fail.
   */
  predicate IsFloatSpace(c: char) {
    IsSpace(c) && !('\U{001C}' <= c <= '\U{001F}')
  }

  /** `\d`, restricted to the ASCII digits. */
  predicate IsDigit(c: char) {
    '0' <= c <= '9'
  }

  /** `\w` on the Latin-1 range: letters, digits, the Latin-1 alphanumerics and `_`. */
  predicate IsWordChar(c: char) {
    || ('a' <= c <= 'z') || ('A' <= c <= 'Z') || IsDigit(c) || c == '_'
    || c == '\U{00AA}' || c == '\U{00B2}' || c == '\U{00B3}' || c == '\U{00B5}'
    || c == '\U{00B9}' || c == '\U{00BA}' || ('\U{00BC}' <= c <= '\U{00BE}')
    || ('\U{00C0}' <= c <= '\U{00FF}' && c != '\U{00D7}' && c != '\U{00F7}')
  }

  /** Upper-case letters that `str.lower` maps one position of 32 down the table. */
  predicate IsUpper(c: char) {
    ('A' <= c <= 'Z') || ('\U{00C0}' <= c <= '\U{00DE}' && c != '\U{00D7}')
  }

  /** `str.lower` on one character (ASCII and Latin-1 letters). */
  function LowerChar(c: char): (r: char)
    ensures !IsUpper(r)
    ensures IsWordChar(r) <==> IsWordChar(c)
  {
    if IsUpper(c) then (c as int + 32) as char else c
  }

  /** `str.lower` on a string: character by character. */
  function Lower(s: string): (r: string)
    ensures |r| == |s|
    ensures forall k :: 0 <= k < |s| ==> r[k] == LowerChar(s[k])
  {
    seq(|s|, k requires 0 <= k < |s| => LowerChar(s[k]))
  }

  /** Lower-casing twice is lower-casing once. */
  lemma LowerIdempotent(s: string)
    ensures Lower(Lower(s)) == Lower(s)
  {
  }

  /** Two strings are equal once both are lower-cased: how `re.IGNORECASE` compares a literal. */
  predicate EqualIgnoringCase(a: string, b: string) {
    Lower(a) == Lower(b)
  }

  /** `n` occurs in `h` starting at index `i`. */
  ghost predicate OccursAt(n: string, h: string, i: int) {
    0 <= i && i + |n| <= |h| && h[i..i + |n|] == n
  }

  /** An occurrence survives lower-casing both strings. */
  lemma OccursAtLower(n: string, h: string, i: int)
    requires OccursAt(n, h, i)
    ensures OccursAt(Lower(n), Lower(h), i)
  {
    assert Lower(h)[i..i + |n|] == Lower(n) by {
      forall k | 0 <= k < |n| ensures Lower(h)[i..i + |n|][k] == Lower(n)[k] {
        assert h[i + k] == h[i..i + |n|][k];
      }
    }
  }

  /** Python's `n in h` for strings: `n` is a substring of `h`. */
  function Contains(h: string, n: string): (b: bool)
    ensures b <==> exists i :: OccursAt(n, h, i)
    decreases |h|
  {
    if |n| <= |h| && h[..|n|] == n then
      assert OccursAt(n, h, 0);
      true
    else if |h| == 0 then
      false
    else
      var b := Contains(h[1..], n);
      assert forall i :: OccursAt(n, h[1..], i) <==> OccursAt(n, h, i + 1) by {
        forall i
          ensures OccursAt(n, h[1..], i) <==> OccursAt(n, h, i + 1)
        {
          if 0 <= i && i + |n| <= |h[1..]| {
            assert h[1..][i..i + |n|] == h[i + 1..i + 1 + |n|];
          }
        }
      }
      assert b ==> exists i :: OccursAt(n, h, i) by {
        if b {
          var i :| OccursAt(n, h[1..], i);
          assert OccursAt(n, h, i + 1);
        }
      }
      assert (exists i :: OccursAt(n, h, i)) ==> b by {
        if exists i :: OccursAt(n, h, i) {
          var i :| OccursAt(n, h, i);
          assert i != 0;
          assert OccursAt(n, h[1..], i - 1);
        }
      }
      b
  }

  /** `n.lower() in h.lower()`, which is also how `re.IGNORECASE` searches for a literal. */
  predicate ContainsIgnoringCase(h: string, n: string) {
    Contains(Lower(h), Lower(n))
  }

  /** Python's `s.replace(from, to)` for a one-character `from`. */
  function ReplaceChar(s: string, from: char, to: string): (r: string)
    ensures from !in to ==> from !in r
    ensures |to| == 1 ==> |r| == |s|
    ensures from !in s ==> r == s
    ensures forall c :: c in r ==> c in s || c in to
  {
    if s == [] then [] else (if s[0] == from then to else [s[0]]) + ReplaceChar(s[1..], from, to)
  }

  /** Replacing distributes over concatenation. */
  lemma {:induction false} ReplaceAppend(a: string, b: string, from: char, to: string)
    ensures ReplaceChar(a + b, from, to) == ReplaceChar(a, from, to) + ReplaceChar(b, from, to)
    decreases |a|
  {
    if a != [] {
      assert (a + b)[1..] == a[1..] + b;
      ReplaceAppend(a[1..], b, from, to);
    } else {
      assert a + b == b;
    }
  }

  /** Stripping removes `float()` whitespace only: every other character keeps its count. */
  lemma FloatStripKeepsNonSpace(s: string)
    ensures forall c :: !IsFloatSpace(c) ==> multiset(FloatStrip(s))[c] == multiset(s)[c]
  {
    var i, j :| 0 <= i <= j <= |s| && FloatStrip(s) == s[i..j] && AllFloatSpace(s[..i]) && AllFloatSpace(s[j..]);
    assert s == s[..i] + s[i..j] + s[j..];
    assert multiset(s) == multiset(s[..i]) + multiset(s[i..j]) + multiset(s[j..]);
    forall c | !IsFloatSpace(c)
      ensures multiset(FloatStrip(s))[c] == multiset(s)[c]
    {
      NoSpaceInAllSpace(s[..i], c);
      NoSpaceInAllSpace(s[j..], c);
    }
  }

  /** Stripping keeps a first character that is not `float()` whitespace. */
  lemma FloatStripKeepsHead(s: string)
    requires |s| > 0 && !IsFloatSpace(s[0])
    ensures |FloatStrip(s)| > 0 && FloatStrip(s)[0] == s[0]
  {
    var i, j :| 0 <= i <= j <= |s| && FloatStrip(s) == s[i..j] && AllFloatSpace(s[..i]) && AllFloatSpace(s[j..]);
    FloatSpaceRun(s, 0, i);
    assert s[j..|s|] == s[j..];
    FloatSpaceRun(s, j, |s|);
    assert i == 0 && j > 0;
  }

  /** Every character of an all-whitespace slice is whitespace. */
  lemma FloatSpaceRun(s: string, i: nat, j: nat)
    requires i <= j <= |s| && AllFloatSpace(s[i..j])
    ensures forall k :: i <= k < j ==> IsFloatSpace(s[k])
  {
    forall k | i <= k < j ensures IsFloatSpace(s[k]) {
      assert s[i..j][k - i] == s[k];
    }
  }

  lemma NoSpaceInAllSpace(a: string, c: char)
    requires AllFloatSpace(a) && !IsFloatSpace(c)
    ensures multiset(a)[c] == 0
  {
  }

  /** Every character of `s` is one that `float()` strips. */
  predicate AllFloatSpace(s: string) {
    forall k :: 0 <= k < |s| ==> IsFloatSpace(s[k])
  }

  /** Number of `float()` whitespace characters `s` starts with. */
  function LeadingSpaces(s: string): (k: nat)
    ensures k <= |s| && AllFloatSpace(s[..k])
    ensures k < |s| ==> !IsFloatSpace(s[k])
  {
    if |s| > 0 && IsFloatSpace(s[0]) then
      var k := LeadingSpaces(s[1..]);
      assert s[..k + 1] == [s[0]] + s[1..][..k];
      k + 1
    else
      0
  }

  /** Index where the `float()` whitespace suffix of `s` starts. */
  function TrailingStart(s: string): (k: nat)
    ensures k <= |s| && AllFloatSpace(s[k..])
    ensures 0 < k ==> !IsFloatSpace(s[k - 1])
  {
    if |s| > 0 && IsFloatSpace(s[|s| - 1]) then
      var k := TrailingStart(s[..|s| - 1]);
      assert s[k..] == s[..|s| - 1][k..] + [s[|s| - 1]];
      k
    else
      |s|
  }

  /**
   * The stripping `float()` does before reading a number: the longest prefix and suffix
   * of `IsFloatSpace` characters removed, everything between them kept.
   */
  function FloatStrip(s: string): (r: string)
    ensures r == [] || (!IsFloatSpace(r[0]) && !IsFloatSpace(r[|r| - 1]))
    ensures exists i, j :: 0 <= i <= j <= |s| && r == s[i..j] && AllFloatSpace(s[..i]) && AllFloatSpace(s[j..])
  {
    var i := LeadingSpaces(s);
    var j := i + TrailingStart(s[i..]);
    FloatStripCut(s, i, j - i);
    var r := s[i..j];
    assert r != [] ==> r[0] == s[i] && r[|r| - 1] == s[j - 1];
    assert 0 <= i <= j <= |s| && r == s[i..j] && AllFloatSpace(s[..i]) && AllFloatSpace(s[j..]);
    r
  }

  /** Where `FloatStrip` cuts: whitespace after the cut, none at either end inside it. */
  lemma FloatStripCut(s: string, i: nat, k: nat)
    requires i == LeadingSpaces(s) && k == TrailingStart(s[i..])
    ensures i + k <= |s| && AllFloatSpace(s[i + k..])
    ensures 0 < k ==> !IsFloatSpace(s[i]) && !IsFloatSpace(s[i + k - 1])
  {
    var t := s[i..];
    assert t[k..] == s[i + k..];
    if 0 < k {
      assert t[k - 1] == s[i + k - 1];
    }
  }

}
