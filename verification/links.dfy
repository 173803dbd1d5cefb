/**
 * The list-processing tail of `discover_links` (main.py:41-63): the hrefs of a results
 * page, already extracted from the HTML, become the detail-page links to visit.
 * A root-relative href is made absolute, kept only when it names the source's domain
 * and looks like a listing, cut at its first `#`, the list capped at
 * `MaxLinksPerSearch`, and duplicates dropped with the first occurrence kept.
 */
module Links {
  import opened Text
  import Dedup
  import opened Lists

  /** main.py:12: at most this many candidate links of one results page are considered. */
  const MaxLinksPerSearch: nat := 200

  predicate StartsWithSlash(href: string) {
    |href| > 0 && href[0] == '/'
  }

  /**
   * main.py:49-50: a root-relative href gets `https://` and the domain in front of it.
   * The result is never root-relative, ends with the href, and names the domain
   * whenever the href was root-relative.
   */
  function Absolutise(href: string, domain: string): (r: string)
    ensures !StartsWithSlash(r)
    ensures |href| <= |r| && r[|r| - |href|..] == href
    ensures !StartsWithSlash(href) ==> r == href
    ensures StartsWithSlash(href) ==> Contains(r, domain)
  {
    if StartsWithSlash(href) then
      var r := "https://" + domain + href;
      assert OccursAt(domain, r, 8) by { assert r[8..8 + |domain|] == domain; }
      r
    else
      href
  }

  /** `s[i..i + n]` consists of ASCII digits. */
  predicate DigitRunAt(s: string, i: nat, n: nat) {
    i + n <= |s| && forall k :: i <= k < i + n ==> IsDigit(s[k])
  }

  /** `\d{5,}` finds a match: some five consecutive characters are digits. */
  predicate HasFiveDigits(s: string) {
    exists i :: 0 <= i <= |s| && DigitRunAt(s, i, 5)
  }

  /** main.py:52: the case-insensitive search for `annonce|fiche|ref|id=|\d{5,}`. */
  predicate LooksLikeListing(href: string) {
    || ContainsIgnoringCase(href, "annonce")
    || ContainsIgnoringCase(href, "fiche")
    || ContainsIgnoringCase(href, "ref")
    || ContainsIgnoringCase(href, "id=")
    || HasFiveDigits(href)
  }

  /**
   * The listing test ignores case: an href passes it exactly when its lower-cased
   * form does.
   */
  lemma ListingTestIgnoresCase(href: string)
    ensures LooksLikeListing(Lower(href)) <==> LooksLikeListing(href)
  {
    LowerIdempotent(href);
    forall i | 0 <= i <= |href| ensures DigitRunAt(Lower(href), i, 5) <==> DigitRunAt(href, i, 5) {
    }
  }

  /** main.py:52: the absolutised href names the domain and looks like a listing. */
  predicate Kept(href: string, domain: string) {
    Contains(href, domain) && LooksLikeListing(href)
  }

  /**
   * main.py:53, `href.split("#")[0]`: the part before the first `#`. The result is a
   * prefix of the input without `#`, followed in the input by `#` or by nothing.
   */
  function StripFragment(s: string): (r: string)
    ensures '#' !in r
    ensures |r| <= |s| && r == s[..|r|]
    ensures |r| < |s| ==> s[|r|] == '#'
  {
    if s == [] || s[0] == '#' then []
    else
      var t := StripFragment(s[1..]);
      assert [s[0]] + t == s[..|t| + 1];
      [s[0]] + t
  }

  /** What the loop of main.py:47-54 appends for one href: its cut link, or nothing. */
  function LinkOf(href: string, domain: string): (r: seq<string>)
    ensures |r| <= 1
    ensures forall u :: u in r ==> '#' !in u
  {
    var h := Absolutise(href, domain);
    if Kept(h, domain) then [StripFragment(h)] else []
  }

  /** `u` is what the loop of main.py:47-54 appends for some href of the page. */
  ghost predicate FromHref(u: string, hrefs: seq<string>, domain: string) {
    exists j :: 0 <= j < |hrefs| && u in LinkOf(hrefs[j], domain)
  }

  /** main.py:47-54: the candidate list, in page order, before capping and dedup. */
  function Candidates(hrefs: seq<string>, domain: string): (r: seq<string>)
    ensures |r| <= |hrefs|
    ensures forall u :: u in r ==> '#' !in u
  {
    var step := h => LinkOf(h, domain);
    GatherBound(hrefs, step);
    GatherAll(hrefs, step, u => '#' !in u);
    Gather(hrefs, step)
  }

  /** Every candidate is what some href of the page contributes. */
  lemma CandidateFromHref(hrefs: seq<string>, domain: string, i: nat)
    requires i < |Candidates(hrefs, domain)|
    ensures FromHref(Candidates(hrefs, domain)[i], hrefs, domain)
  {
    var step := h => LinkOf(h, domain);
    GatherFrom(hrefs, step, i);
    var j :| 0 <= j < |hrefs| && Candidates(hrefs, domain)[i] in step(hrefs[j]);
    assert Candidates(hrefs, domain)[i] in LinkOf(hrefs[j], domain);
  }

  /** The candidates of two runs of hrefs are the candidates of each, in order. */
  lemma CandidatesAppend(a: seq<string>, b: seq<string>, domain: string)
    ensures Candidates(a + b, domain) == Candidates(a, domain) + Candidates(b, domain)
  {
    GatherAppend(a, b, h => LinkOf(h, domain));
  }

  /**
   * The loop of main.py:47-54, one href at a time: after the `j + 1`-th href the list is
   * the list after the `j`-th with that href's cut link appended when it is kept.
   */
  lemma CandidatesStep(hrefs: seq<string>, j: nat, domain: string)
    requires j < |hrefs|
    ensures Candidates(hrefs[..j + 1], domain) == Candidates(hrefs[..j], domain) + LinkOf(hrefs[j], domain)
  {
    GatherStep(hrefs, j, h => LinkOf(h, domain));
  }

  /** Every kept href contributes its cut link to the candidates. */
  lemma KeptHrefContributes(hrefs: seq<string>, j: nat, domain: string)
    requires j < |hrefs| && Kept(Absolutise(hrefs[j], domain), domain)
    ensures StripFragment(Absolutise(hrefs[j], domain)) in Candidates(hrefs, domain)
  {
    var u := StripFragment(Absolutise(hrefs[j], domain));
    assert LinkOf(hrefs[j], domain) == [u];
    GatherKeeps(hrefs, j, h => LinkOf(h, domain), u);
  }

  /** Python's `xs[:n]`. */
  function Take<T>(xs: seq<T>, n: nat): (r: seq<T>)
    ensures |r| <= n && |r| <= |xs|
    ensures r == xs[..|r|]
    ensures |r| < n ==> r == xs
  {
    if |xs| <= n then xs else xs[..n]
  }

  /** A link is its own deduplication key. */
  function LinkKey(u: string): string {
    u
  }

  /** The result of deduplicating the capped candidates: the value `DiscoverLinks` returns. */
  function Discovered(hrefs: seq<string>, domain: string): seq<string> {
    Dedup.DedupBy(Take(Candidates(hrefs, domain), MaxLinksPerSearch), LinkKey)
  }

  /** One step of the `seen` loop: a new link is appended, a seen one skipped. */
  lemma DedupLinkStep(xs: seq<string>, i: nat)
    requires i < |xs|
    ensures Dedup.DedupBy(xs[..i + 1], LinkKey)
         == (var p := Dedup.DedupBy(xs[..i], LinkKey); if xs[i] in p then p else p + [xs[i]])
  {
    assert xs[..i + 1][..i] == xs[..i];
    var p := Dedup.DedupBy(xs[..i], LinkKey);
    if xs[i] in p {
      var k :| 0 <= k < |p| && p[k] == xs[i];
      assert LinkKey(p[k]) == xs[i];
    }
  }

  /** The discovered links are distinct, at most the cap, without `#`, and each from a kept href. */
  lemma DiscoveredProperties(hrefs: seq<string>, domain: string)
    ensures |Discovered(hrefs, domain)| <= MaxLinksPerSearch
    ensures forall i, j :: 0 <= i < j < |Discovered(hrefs, domain)| ==> Discovered(hrefs, domain)[i] != Discovered(hrefs, domain)[j]
    ensures forall u :: u in Discovered(hrefs, domain) ==> '#' !in u && FromHref(u, hrefs, domain)
  {
    var links := Candidates(hrefs, domain);
    var capped := Take(links, MaxLinksPerSearch);
    var out := Discovered(hrefs, domain);
    assert forall k :: 0 <= k < |out| ==> LinkKey(out[k]) == out[k];
    forall u | u in out ensures '#' !in u && FromHref(u, hrefs, domain) {
      assert u in capped;
      assert u in links;
      var k :| 0 <= k < |links| && links[k] == u;
      CandidateFromHref(hrefs, domain, k);
    }
  }

  /**
   * main.py:56-60: the `seen`-set loop. It computes the first-occurrence deduplication
   * of its input.
   */
  method DedupLinks(links: seq<string>) returns (out: seq<string>)
    ensures out == Dedup.DedupBy(links, LinkKey)
  {
    var seen: set<string> := {};
    out := [];
    var i := 0;
    while i < |links|
      invariant 0 <= i <= |links|
      invariant out == Dedup.DedupBy(links[..i], LinkKey)
      invariant forall u :: u in seen <==> u in out
    {
      var u := links[i];
      DedupLinkStep(links, i);
      if u !in seen {
        seen := seen + {u};
        out := out + [u];
      }
      i := i + 1;
    }
    assert links[..i] == links;
  }

  /**
   * main.py:45-60 once the anchors are enumerated: the candidate links of the page,
   * capped at `MaxLinksPerSearch`, then deduplicated. No duplicates, no `#`, at most
   * the cap, and every link comes from a kept href of the page.
   */
  method DiscoverLinks(hrefs: seq<string>, domain: string) returns (out: seq<string>)
    ensures out == Discovered(hrefs, domain)
    ensures |out| <= MaxLinksPerSearch
    ensures forall i, j :: 0 <= i < j < |out| ==> out[i] != out[j]
    ensures forall u :: u in out ==> '#' !in u && FromHref(u, hrefs, domain)
  {
    var links := Candidates(hrefs, domain);
    out := DedupLinks(Take(links, MaxLinksPerSearch));
    DiscoveredProperties(hrefs, domain);
  }

  lemma {:induction false} StripExample(h: string)
    requires h == "https://a.fr/fiche#photos"
    ensures StripFragment(h) == "https://a.fr/fiche"
  {
    var r := StripFragment(h);
    assert '#' !in h[..18];
    assert h[18] == '#';
  }

  lemma {:induction false} KeptExample(h: string, domain: string)
    requires h == "https://a.fr/fiche#photos" && domain == "a.fr"
    ensures Kept(h, domain)
  {
    assert OccursAt(domain, h, 8) by { assert h[8..12] == domain; }
    var n := "fiche";
    assert Lower(n) == n;
    assert OccursAt(n, Lower(h), 13) by { assert Lower(h)[13..18] == n; }
  }

  /** A root-relative listing link with a fragment: made absolute, kept, and cut at `#`. */
  lemma {:induction false} CandidateExample(href: string, domain: string)
    requires href == "/fiche#photos" && domain == "a.fr"
    ensures Candidates([href], domain) == ["https://a.fr/fiche"]
  {
    var h := Absolutise(href, domain);
    assert StartsWithSlash(href);
    assert h == "https://" + domain + href;
    assert h == "https://a.fr/fiche#photos";
    KeptExample(h, domain);
    StripExample(h);
    assert [href][1..] == [];
  }
}
