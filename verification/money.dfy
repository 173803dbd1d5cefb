/**
 * `money` (main.py:68-85): find an amount written before a euro sign, normalise
 * the French separators and read it as a number, with `None` for every failure.
 *
 * The search is Python's `re.search(r"([\d\s][\d\s\.,]{2,})\s*€", t)`: the leftmost
 * start position at which the pattern matches, with the greedy group. `float()` is
 * modelled on exact reals: binary floating-point rounding is not.
 */
module Currency {
  import opened Options
  import opened Text

  const Euro: char := '\U{20AC}'
  const Nbsp: char := '\U{00A0}'
  const NarrowNbsp: char := '\U{202F}'

  /** The class `[\d\s]` of the group's first character. */
  predicate IsLead(c: char) {
    IsDigit(c) || IsSpace(c)
  }

  /** The class `[\d\s\.,]` of the group's remaining characters. */
  predicate IsRunChar(c: char) {
    IsDigit(c) || IsSpace(c) || c == '.' || c == ','
  }

  /** End of the longest run of `[\d\s\.,]` characters starting at `j`. */
  function RunEnd(t: string, j: nat): (e: nat)
    requires j <= |t|
    ensures j <= e <= |t|
    ensures forall p :: j <= p < e ==> IsRunChar(t[p])
    ensures e < |t| ==> !IsRunChar(t[e])
    decreases |t| - j
  {
    if j < |t| && IsRunChar(t[j]) then RunEnd(t, j + 1) else j
  }

  /**
   * The pattern matches with its first character at `i`: the run of
   * `[\d\s\.,]` after it has at least two characters and stops at a euro sign.
   */
  predicate MatchesAt(t: string, i: nat) {
    && i < |t|
    && IsLead(t[i])
    && var e := RunEnd(t, i + 1);
       e >= i + 3 && e < |t| && t[e] == Euro
  }

  /**
   * Reference reading of the pattern: `t[i..k]` is the group
   * `[\d\s][\d\s\.,]{2,}`, `t[k..m]` is `\s*` and `t[m]` is the euro sign.
   */
  ghost predicate PatternAt(t: string, i: int, k: int, m: int) {
    && 0 <= i && i + 3 <= k <= m < |t|
    && IsLead(t[i])
    && (forall p :: i < p < k ==> IsRunChar(t[p]))
    && (forall p :: k <= p < m ==> IsSpace(t[p]))
    && t[m] == Euro
  }

  /**
   * `MatchesAt` is exactly "the pattern has some parse starting at `i`", and the group it
   * takes, `t[i..RunEnd(t, i + 1)]`, is the longest group of any parse: the greedy choice.
   */
  lemma GreedyGroup(t: string, i: nat)
    requires i < |t|
    ensures MatchesAt(t, i) <==> exists k, m :: PatternAt(t, i, k, m)
    ensures MatchesAt(t, i) ==> PatternAt(t, i, RunEnd(t, i + 1), RunEnd(t, i + 1))
    ensures forall k, m :: PatternAt(t, i, k, m) ==> k <= m == RunEnd(t, i + 1)
  {
    var e := RunEnd(t, i + 1);
    forall k, m | PatternAt(t, i, k, m)
      ensures k <= m == e
    {
      assert forall p :: i + 1 <= p < m ==> IsRunChar(t[p]);
      assert !IsRunChar(t[m]);
    }
    if MatchesAt(t, i) {
      assert PatternAt(t, i, e, e);
    }
  }

  /** Leftmost start at or after `i` where the pattern matches. */
  function FindAmount(t: string, i: nat): (r: Option<nat>)
    requires i <= |t|
    ensures r.Some? ==> i <= r.value < |t| && MatchesAt(t, r.value)
    ensures r.Some? ==> forall j :: i <= j < r.value ==> !MatchesAt(t, j)
    ensures r.None? ==> forall j :: i <= j < |t| ==> !MatchesAt(t, j)
    decreases |t| - i
  {
    if i == |t| then None
    else if MatchesAt(t, i) then Some(i)
    else FindAmount(t, i + 1)
  }

  /**
   * The four `replace` calls of main.py:75-81, applied in the source's order:
   * spaces, narrow no-break spaces and periods removed, then commas turned into periods.
   */
  function NormalizeToken(g: string): (r: string)
    ensures r == NormalizeCharwise(g)
    ensures multiset(r)['.'] == multiset(g)[',']
  {
    NormalizeIsCharwise(g);
    NormalizeCounts(g);
    ReplaceChar(ReplaceChar(ReplaceChar(ReplaceChar(g, ' ', ""), NarrowNbsp, ""), '.', ""), ',', ".")
  }

  /** What the four replacements do to one character. */
  function NormalizeChar(c: char): string {
    if c == ' ' || c == NarrowNbsp || c == '.' then ""
    else if c == ',' then "."
    else [c]
  }

  /** Characters the normalisation leaves as they are. */
  predicate IsKept(c: char) {
    c != ' ' && c != NarrowNbsp && c != '.' && c != ','
  }

  /**
   * Reference, single-pass reading of the normalisation: no space, narrow no-break
   * space or comma survives it.
   */
  function NormalizeCharwise(g: string): (r: string)
    ensures forall k :: 0 <= k < |r| ==> r[k] != ' ' && r[k] != NarrowNbsp && r[k] != ','
  {
    if g == [] then [] else NormalizeChar(g[0]) + NormalizeCharwise(g[1..])
  }

  /**
   * The normalised token holds one period for each comma of `g` (so none of `g`'s own
   * periods) and every other character as many times as `g` does.
   */
  lemma {:induction false} NormalizeCounts(g: string)
    ensures multiset(NormalizeCharwise(g))['.'] == multiset(g)[',']
    ensures forall c :: IsKept(c) ==> multiset(NormalizeCharwise(g))[c] == multiset(g)[c]
    decreases |g|
  {
    if g != [] {
      NormalizeCounts(g[1..]);
      CharwiseSplit(g);
      NormalizeCharCounts(g[0], '.');
      forall c | IsKept(c)
        ensures multiset(NormalizeCharwise(g))[c] == multiset(g)[c]
      {
        NormalizeCharCounts(g[0], c);
      }
    }
  }

  /** The counts of a token and of its normalisation, split at the first character. */
  lemma CharwiseSplit(g: string)
    requires g != []
    ensures multiset(g) == multiset{g[0]} + multiset(g[1..])
    ensures multiset(NormalizeCharwise(g)) == multiset(NormalizeChar(g[0])) + multiset(NormalizeCharwise(g[1..]))
  {
    assert g == [g[0]] + g[1..];
  }

  /** One character's contribution to the counts of `NormalizeCounts`. */
  lemma NormalizeCharCounts(c: char, d: char)
    ensures d == '.' ==> multiset(NormalizeChar(c))[d] == (if c == ',' then 1 else 0)
    ensures IsKept(d) ==> multiset(NormalizeChar(c))[d] == (if c == d then 1 else 0)
  {
  }

  /** The four chained replacements are the single-pass normalisation. */
  lemma {:induction false} NormalizeIsCharwise(g: string)
    ensures ReplaceChar(ReplaceChar(ReplaceChar(ReplaceChar(g, ' ', ""), NarrowNbsp, ""), '.', ""), ',', ".")
         == NormalizeCharwise(g)
    decreases |g|
  {
    if g != [] {
      var c, rest := [g[0]], g[1..];
      assert g == c + rest;
      ReplaceAppend(c, rest, ' ', "");
      var g1, r1 := ReplaceChar(c, ' ', ""), ReplaceChar(rest, ' ', "");
      ReplaceAppend(g1, r1, NarrowNbsp, "");
      var g2, r2 := ReplaceChar(g1, NarrowNbsp, ""), ReplaceChar(r1, NarrowNbsp, "");
      ReplaceAppend(g2, r2, '.', "");
      var g3, r3 := ReplaceChar(g2, '.', ""), ReplaceChar(r2, '.', "");
      ReplaceAppend(g3, r3, ',', ".");
      NormalizeIsCharwise(rest);
      assert ReplaceChar(g3, ',', ".") == NormalizeChar(g[0]);
    }
  }

  function DigitValue(c: char): nat
    requires IsDigit(c)
  {
    c as int - '0' as int
  }

  predicate AllDigits(s: string) {
    forall k :: 0 <= k < |s| ==> IsDigit(s[k])
  }

  /** The natural number a string of decimal digits denotes. */
  function DigitsValue(ds: string): nat
    requires AllDigits(ds)
  {
    if ds == [] then 0 else 10 * DigitsValue(ds[..|ds| - 1]) + DigitValue(ds[|ds| - 1])
  }

  function Pow10(n: nat): (p: nat)
    ensures p >= 1
  {
    if n == 0 then 1 else 10 * Pow10(n - 1)
  }

  /** Index of the first period of `u`, or `|u|` when it has none. */
  function DotIndex(u: string): (d: nat)
    ensures d <= |u|
    ensures forall k :: 0 <= k < d ==> u[k] != '.'
    ensures d < |u| ==> u[d] == '.'
  {
    if u == [] || u[0] == '.' then 0 else 1 + DotIndex(u[1..])
  }

  /**
   * What `float()` accepts once surrounding whitespace is gone, among strings made of
   * digits, periods and whitespace (the only characters a normalised token can hold):
   * digits, optionally a period and more digits, and at least one digit in all
   * ("12", "12.", ".5", "12.50").
   */
  predicate IsDecimalLiteral(u: string) {
    var d := DotIndex(u);
    && AllDigits(u[..d])
    && (d < |u| ==> AllDigits(u[d + 1..]))
    && (d > 0 || d + 1 < |u|)
  }

  /** The exact value of a decimal literal: integer digits plus fraction digits over a power of ten. */
  function DecimalValue(u: string): (v: real)
    requires IsDecimalLiteral(u)
    ensures v >= 0.0
  {
    var d := DotIndex(u);
    DigitsValue(u[..d]) as real
      + if d < |u| then DigitsValue(u[d + 1..]) as real / Pow10(|u| - d - 1) as real else 0.0
  }

  /** A decimal literal has at most one period and at least one digit. */
  lemma DecimalLiteralCounts(u: string)
    requires IsDecimalLiteral(u)
    ensures multiset(u)['.'] <= 1
    ensures exists k :: 0 <= k < |u| && IsDigit(u[k])
  {
    var d := DotIndex(u);
    var i := u[..d];
    if d < |u| {
      var f := u[d + 1..];
      assert u == i + [u[d]] + f;
      assert multiset(u) == multiset(i) + multiset{'.'} + multiset(f);
      assert forall k :: 0 <= k < |f| ==> f[k] != '.';
      assert '.' !in f;
      assert '.' !in i;
      if d > 0 {
        assert IsDigit(i[0]);
      } else {
        assert IsDigit(f[0]);
      }
    } else {
      assert i == u;
      assert IsDigit(i[0]);
      assert '.' !in u;
    }
  }

  /**
   * Python's `float(val)` on a normalised token: `None` where Python raises `ValueError`.
   * Only `Text.IsFloatSpace` characters are stripped first.
   */
  function ParseFloat(val: string): (r: Option<real>)
    ensures r.Some? ==> r.value >= 0.0
  {
    var u := FloatStrip(val);
    if IsDecimalLiteral(u) then Some(DecimalValue(u)) else None
  }

  /** `money(text)` (main.py:68-85). */
  function Money(text: string): (r: Option<real>)
    ensures text == [] ==> r == None
    ensures r.Some? ==> r.value >= 0.0
  {
    if text == [] then None
    else
      var t := ReplaceChar(text, Nbsp, " ");
      match FindAmount(t, 0)
      case None => None
      case Some(i) => ParseFloat(NormalizeToken(t[i..RunEnd(t, i + 1)]))
  }

  /** Decimal rendering of a natural number, most significant digit first. */
  function NatToDigits(n: nat): (ds: string)
    ensures |ds| >= 1 && AllDigits(ds)
  {
    var d := ['0' + (n % 10) as char];
    if n < 10 then d else NatToDigits(n / 10) + d
  }

  /** Reading back a rendered natural number gives the number. */
  lemma {:induction false} DigitsRoundTrip(n: nat)
    ensures DigitsValue(NatToDigits(n)) == n
  {
    var ds := NatToDigits(n);
    if n >= 10 {
      DigitsRoundTrip(n / 10);
      assert ds[..|ds| - 1] == NatToDigits(n / 10);
    }
  }

  /**
   * Without a match of the pattern, once no-break spaces are read as spaces, there is
   * no amount.
   */
  lemma NoMatchNoAmount(text: string)
    requires forall i :: 0 <= i < |text| ==> !MatchesAt(ReplaceChar(text, Nbsp, " "), i)
    ensures Money(text) == None
  {
  }

  /** A text with no euro sign holds no amount. */
  lemma NoEuroNoAmount(text: string)
    requires Euro !in text
    ensures Money(text) == None
  {
    var t := ReplaceChar(text, Nbsp, " ");
    forall i | 0 <= i < |text|
      ensures !MatchesAt(t, i)
    {
      if i < |t| && i + 1 <= |t| {
        var e := RunEnd(t, i + 1);
        if e < |t| {
          assert t[e] in t;
        }
      }
    }
    NoMatchNoAmount(text);
  }

  /**
   * When the pattern matches at the very first character, the search stops there and
   * the group runs up to the euro sign.
   */
  lemma AmountAtStart(t: string, e: nat)
    requires 3 <= e < |t| && IsLead(t[0]) && t[e] == Euro
    requires forall p :: 1 <= p < e ==> IsRunChar(t[p])
    ensures RunEnd(t, 1) == e
    ensures FindAmount(t, 0) == Some(0)
  {
    assert MatchesAt(t, 0);
  }

  /**
   * `text` has no no-break space and the pattern matches at its first character, with
   * the euro sign at `e`.
   */
  predicate LeadingAmount(text: string, e: nat) {
    && Nbsp !in text
    && 3 <= e < |text| && IsLead(text[0]) && text[e] == Euro
    && (forall p :: 1 <= p < e ==> IsRunChar(text[p]))
  }

  /** A text whose amount starts at its first character is read from the group ending at the euro sign. */
  lemma MoneyOfLeadingAmount(text: string, e: nat)
    requires LeadingAmount(text, e)
    ensures Money(text) == ParseFloat(NormalizeCharwise(text[..e]))
  {
    AmountAtStart(text, e);
    NormalizeIsCharwise(text[0..e]);
  }

  /** `MoneyOfLeadingAmount` with the normalised token and its value given. */
  lemma MoneyOfLeadingDigits(text: string, e: nat, ds: string, n: nat)
    requires LeadingAmount(text, e)
    requires NormalizeCharwise(text[..e]) == ds && NatToDigits(n) == ds
    ensures Money(text) == Some(n as real)
  {
    MoneyOfLeadingAmount(text, e);
    ParseDigits(ds);
    DigitsRoundTrip(n);
  }

  /** A non-empty string of digits parses to the number it denotes. */
  lemma ParseDigits(ds: string)
    requires |ds| >= 1 && AllDigits(ds)
    ensures ParseFloat(ds) == Some(DigitsValue(ds) as real)
  {
    StripUnpadded(ds);
    assert '.' !in ds;
    assert multiset(ds)['.'] == 0;
    assert IsDigit(ds[0]);
    assert DotIndex(ds) == |ds|;
  }

  /** Digits padded with one space on each side normalise to the bare digits. */
  lemma PaddedDigitsNormalize(ds: string)
    requires AllDigits(ds)
    ensures NormalizeCharwise([' '] + ds + [' ']) == ds
  {
    assert [' '] + ds + [' '] == [' '] + (ds + [' ']);
    CharwiseAppend([' '], ds + [' ']);
    CharwiseAppend(ds, [' ']);
    CharwiseOfDigits(ds);
  }

  /** A string that neither starts nor ends with `float()` whitespace is its own strip. */
  lemma StripUnpadded(u: string)
    requires |u| >= 1 && !IsFloatSpace(u[0]) && !IsFloatSpace(u[|u| - 1])
    ensures FloatStrip(u) == u
  {
    assert LeadingSpaces(u) == 0;
    assert u[0..] == u;
  }

  lemma DotIndexOfParts(a: string, b: string)
    requires AllDigits(a)
    ensures DotIndex(a + "." + b) == |a|
  {
    var u := a + "." + b;
    var d := DotIndex(u);
    assert u[|a|] == '.';
  }

  lemma DecimalOfParts(u: string, a: string, b: string)
    requires u == a + "." + b
    requires |a| >= 1 && AllDigits(a) && AllDigits(b)
    ensures IsDecimalLiteral(u)
    ensures DecimalValue(u) == DigitsValue(a) as real + DigitsValue(b) as real / Pow10(|b|) as real
  {
    DotIndexOfParts(a, b);
    assert u[..|a|] == a;
    assert u[|a| + 1..] == b;
  }

  lemma ParseUnpaddedLiteral(u: string)
    requires IsDecimalLiteral(u) && FloatStrip(u) == u
    ensures ParseFloat(u) == Some(DecimalValue(u))
  {
  }

  /** Integer digits, a period and fraction digits parse to the exact decimal value. */
  lemma {:induction false} ParseDecimalParts(u: string, a: string, b: string)
    requires u == a + "." + b
    requires |a| >= 1 && AllDigits(a) && AllDigits(b)
    ensures ParseFloat(u) == Some(DigitsValue(a) as real + DigitsValue(b) as real / Pow10(|b|) as real)
  {
    StripUnpadded(u);
    DecimalOfParts(u, a, b);
    ParseUnpaddedLiteral(u);
  }

  /**
   * A natural number written in plain digits between spaces before a euro sign,
   * `" 1250000 €"`, is read back exactly.
   */
  lemma MoneyRoundTrip(n: nat)
    ensures Money(" " + NatToDigits(n) + " " + [Euro]) == Some(n as real)
  {
    var ds := NatToDigits(n);
    var text := " " + ds + " " + [Euro];
    assert forall k :: 0 <= k < |text| ==> text[k] != Nbsp;
    var e := |ds| + 2;
    MoneyOfLeadingAmount(text, e);
    assert text[..e] == [' '] + ds + [' '];
    PaddedDigitsNormalize(ds);
    ParseDigits(ds);
    DigitsRoundTrip(n);
  }

  lemma {:induction false} CharwiseAppend(a: string, b: string)
    ensures NormalizeCharwise(a + b) == NormalizeCharwise(a) + NormalizeCharwise(b)
    decreases |a|
  {
    if a != [] {
      assert (a + b)[1..] == a[1..] + b;
      CharwiseAppend(a[1..], b);
    } else {
      assert a + b == b;
    }
  }

  lemma {:induction false} CharwiseOfDigits(ds: string)
    requires AllDigits(ds)
    ensures NormalizeCharwise(ds) == ds
    decreases |ds|
  {
    if ds != [] {
      CharwiseOfDigits(ds[1..]);
    }
  }

  lemma {:induction false} CharwiseNoDigits(g: string)
    requires forall k :: 0 <= k < |g| ==> !IsDigit(g[k])
    ensures forall k :: 0 <= k < |NormalizeCharwise(g)| ==> !IsDigit(NormalizeCharwise(g)[k])
    decreases |g|
  {
    if g != [] {
      CharwiseNoDigits(g[1..]);
    }
  }

  /** A string with no digit is never a number. */
  lemma NoDigitsNoNumber(u: string)
    requires forall k :: 0 <= k < |u| ==> !IsDigit(u[k])
    ensures ParseFloat(u) == None
  {
    var v := FloatStrip(u);
    var i, j :| 0 <= i <= j <= |u| && v == u[i..j] && AllFloatSpace(u[..i]) && AllFloatSpace(u[j..]);
    assert forall k :: 0 <= k < |v| ==> v[k] == u[i + k];
    assert !IsDecimalLiteral(v) by {
      if IsDecimalLiteral(v) {
        DecimalLiteralCounts(v);
      }
    }
  }

  /** A token with no digit is not a number: `None`, not an exception. */
  lemma TokenWithoutDigitsIsNone(g: string)
    requires forall k :: 0 <= k < |g| ==> !IsDigit(g[k])
    ensures ParseFloat(NormalizeToken(g)) == None
  {
    NormalizeIsCharwise(g);
    CharwiseNoDigits(g);
    NoDigitsNoNumber(NormalizeCharwise(g));
  }

  /**
   * A token that starts with one of the ASCII separators U+001C to U+001F is not a
   * number: `\s` lets them into the group, but `float()` does not strip them.
   */
  lemma LeadingSeparatorIsNone(u: string)
    requires |u| >= 1 && '\U{001C}' <= u[0] <= '\U{001F}'
    ensures ParseFloat(u) == None
  {
    FloatStripKeepsHead(u);
    var v := FloatStrip(u);
    assert !IsDecimalLiteral(v) by {
      var d := DotIndex(v);
      if d > 0 {
        assert v[..d][0] == v[0];
      }
    }
  }

  /**
   * A text whose group starts with one of U+001C to U+001F has no amount: the pattern
   * matches, and `float()` then fails on the separator.
   */
  lemma SeparatorLeadNoAmount(text: string, e: nat)
    requires LeadingAmount(text, e) && '\U{001C}' <= text[0] <= '\U{001F}'
    ensures Money(text) == None
  {
    var g := text[..e];
    SeparatorHeadKept(g);
    LeadingSeparatorIsNone(NormalizeCharwise(g));
    MoneyOfLeadingAmount(text, e);
  }

  /** Normalisation keeps a leading separator U+001C to U+001F. */
  lemma SeparatorHeadKept(g: string)
    requires |g| > 0 && '\U{001C}' <= g[0] <= '\U{001F}'
    ensures |NormalizeCharwise(g)| > 0 && NormalizeCharwise(g)[0] == g[0]
  {
    assert NormalizeChar(g[0]) == [g[0]];
  }

  /** A token with two or more commas has two or more decimal points: `None`. */
  lemma TwoCommasIsNone(g: string)
    requires multiset(g)[','] >= 2
    ensures ParseFloat(NormalizeToken(g)) == None
  {
    NormalizeIsCharwise(g);
    NormalizeCounts(g);
    var u := NormalizeCharwise(g);
    assert multiset(u)['.'] >= 2;
    FloatStripKeepsNonSpace(u);
    assert !IsFloatSpace('.');
    var v := FloatStrip(u);
    assert multiset(v)['.'] >= 2;
    assert !IsDecimalLiteral(v) by {
      if IsDecimalLiteral(v) {
        DecimalLiteralCounts(v);
      }
    }
  }
}
