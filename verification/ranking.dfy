/**
 * The output table (main.py:279-285): rows deduplicated by URL, first kept, then
 * ordered by location tier, then net yield from high to low, then gross yield from
 * high to low. A missing yield is placed after every present one of the same tier,
 * as the table library places missing values last.
 */
module Ranking {
  import opened Options
  import opened Location
  import opened Records
  import Dedup

  /** main.py:283: the rank of a score label; a label outside the table ranks 3. */
  function Rank(score: string): (k: nat)
    ensures k <= 3
    ensures score == "" ==> k == 3
    ensures score != "N\U{00B0}1" && score != "1bis" && score != "2" ==> k == 3
  {
    if score == "N\U{00B0}1" then 0
    else if score == "1bis" then 1
    else if score == "2" then 2
    else 3
  }

  /** Position of a tier in the precedence `PrimeAxis`, `PrimeZone`, `Ordinary`, `Unscored`. */
  function Precedence(t: Tier): nat {
    match t
    case PrimeAxis => 0
    case PrimeZone => 1
    case Ordinary => 2
    case Unscored => 3
  }

  /** Ranking a row by its label ranks it by its tier: the rank table follows tier precedence. */
  lemma RankFollowsTier(t: Tier)
    ensures Rank(t.Label()) == Precedence(t)
  {
    match t
    case PrimeAxis =>
    case PrimeZone =>
      assert t.Label() != "N\U{00B0}1" by { assert t.Label()[0] != 'N'; }
    case Ordinary =>
      assert t.Label() != "N\U{00B0}1" && t.Label() != "1bis";
    case Unscored =>
  }

  /** `x` comes strictly before `y` in a descending order that puts a missing value last. */
  predicate DescBefore(x: Option<real>, y: Option<real>) {
    x.Some? && (y.None? || x.value > y.value)
  }

  /** `a` may be placed before `b`: tier rank ascending, then net, then gross, descending. */
  predicate Leq(a: Row, b: Row)
    ensures a == b ==> Leq(a, b)
    ensures Rank(a.score) < Rank(b.score) ==> Leq(a, b)
    ensures Rank(b.score) < Rank(a.score) ==> !Leq(a, b)
  {
    || Rank(a.score) < Rank(b.score)
    || (Rank(a.score) == Rank(b.score)
        && (|| DescBefore(a.net, b.net)
            || (a.net == b.net && (DescBefore(a.gross, b.gross) || a.gross == b.gross))))
  }

  /** Any two rows can be compared. */
  lemma LeqTotal(a: Row, b: Row)
    ensures Leq(a, b) || Leq(b, a)
  {
  }

  /** The order is transitive. */
  lemma LeqTransitive(a: Row, b: Row, c: Row)
    requires Leq(a, b) && Leq(b, c)
    ensures Leq(a, c)
  {
  }

  predicate Sorted(xs: seq<Row>) {
    forall i, j :: 0 <= i < j < |xs| ==> Leq(xs[i], xs[j])
  }

  /** The head of a sorted sequence may precede every row of its tail with a later row inserted. */
  lemma HeadBelowInserted(x: Row, xs: seq<Row>, tail: seq<Row>)
    requires Sorted(xs) && xs != [] && Leq(xs[0], x)
    requires multiset(tail) == multiset(xs[1..]) + multiset{x}
    ensures forall i :: 0 <= i < |tail| ==> Leq(xs[0], tail[i])
  {
    forall i | 0 <= i < |tail| ensures Leq(xs[0], tail[i]) {
      assert tail[i] in multiset(xs[1..]) + multiset{x};
      if tail[i] != x {
        assert tail[i] in xs[1..];
        var j :| 0 <= j < |xs[1..]| && xs[1..][j] == tail[i];
        assert xs[j + 1] == tail[i];
      }
    }
  }

  /** Inserts `x` into a sorted sequence before the first row it may precede. */
  function Insert(x: Row, xs: seq<Row>): (r: seq<Row>)
    requires Sorted(xs)
    ensures Sorted(r)
    ensures multiset(r) == multiset(xs) + multiset{x}
  {
    if xs == [] then [x]
    else if Leq(x, xs[0]) then
      assert forall j :: 0 <= j < |xs| ==> Leq(x, xs[j]) by {
        forall j | 0 <= j < |xs| ensures Leq(x, xs[j]) {
          if j > 0 { LeqTransitive(x, xs[0], xs[j]); }
        }
      }
      assert forall i :: 0 < i < |xs| + 1 ==> ([x] + xs)[i] == xs[i - 1];
      [x] + xs
    else
      LeqTotal(x, xs[0]);
      var tail := Insert(x, xs[1..]);
      assert xs == [xs[0]] + xs[1..];
      HeadBelowInserted(x, xs, tail);
      assert forall i :: 0 < i < |tail| + 1 ==> ([xs[0]] + tail)[i] == tail[i - 1];
      [xs[0]] + tail
  }

  /** Insertion sort: a sorted permutation of its input. */
  function Sort(xs: seq<Row>): (r: seq<Row>)
    ensures Sorted(r)
    ensures multiset(r) == multiset(xs)
  {
    if xs == [] then []
    else
      assert xs == [xs[0]] + xs[1..];
      Insert(xs[0], Sort(xs[1..]))
  }

  /**
   * What sortedness means for the table: tiers never go back up the precedence, and
   * within one tier a present net yield never increases, a missing one is never
   * followed by a present one, and between equal net yields the gross yield behaves
   * the same way.
   */
  lemma SortedMeaning(xs: seq<Row>, i: nat, j: nat)
    requires Sorted(xs) && i < j < |xs|
    ensures Rank(xs[i].score) <= Rank(xs[j].score)
    ensures Rank(xs[i].score) == Rank(xs[j].score) && xs[i].net.None? ==> xs[j].net.None?
    ensures Rank(xs[i].score) == Rank(xs[j].score) && xs[i].net.Some? && xs[j].net.Some?
            ==> xs[i].net.value >= xs[j].net.value
    ensures Rank(xs[i].score) == Rank(xs[j].score) && xs[i].net == xs[j].net
            && xs[i].gross.Some? && xs[j].gross.Some?
            ==> xs[i].gross.value >= xs[j].gross.value
  {
    assert Leq(xs[i], xs[j]);
  }

  /** A row's deduplication key: its URL (main.py:281). */
  function RowUrl(r: Row): string {
    r.url
  }

  /** Putting a row with a new URL in front keeps the URLs distinct. */
  lemma ConsKeepsUrlsDistinct(y: Row, ys: seq<Row>)
    requires Dedup.KeysDistinct(ys, RowUrl)
    requires forall i :: 0 <= i < |ys| ==> ys[i].url != y.url
    ensures Dedup.KeysDistinct([y] + ys, RowUrl)
  {
    assert forall i :: 0 < i < |ys| + 1 ==> ([y] + ys)[i] == ys[i - 1];
  }

  /** Inserting a row whose URL is new keeps the URLs distinct. */
  lemma {:induction false} InsertKeepsUrlsDistinct(x: Row, xs: seq<Row>)
    requires Sorted(xs) && Dedup.KeysDistinct(xs, RowUrl)
    requires forall i :: 0 <= i < |xs| ==> xs[i].url != x.url
    ensures Dedup.KeysDistinct(Insert(x, xs), RowUrl)
    decreases |xs|
  {
    if xs == [] {
    } else if Leq(x, xs[0]) {
      ConsKeepsUrlsDistinct(x, xs);
    } else {
      var rest := xs[1..];
      assert Dedup.KeysDistinct(rest, RowUrl);
      assert forall i :: 0 <= i < |rest| ==> rest[i].url != x.url;
      InsertKeepsUrlsDistinct(x, rest);
      var tail := Insert(x, rest);
      forall i | 0 <= i < |tail| ensures tail[i].url != xs[0].url {
        assert tail[i] in multiset(tail);
        if tail[i] != x {
          assert tail[i] in rest;
          var j :| 0 <= j < |rest| && rest[j] == tail[i];
          assert xs[j + 1] == tail[i];
        }
      }
      ConsKeepsUrlsDistinct(xs[0], tail);
    }
  }

  /** Sorting rows with distinct URLs keeps them distinct. */
  lemma {:induction false} SortKeepsUrlsDistinct(xs: seq<Row>)
    requires Dedup.KeysDistinct(xs, RowUrl)
    ensures Dedup.KeysDistinct(Sort(xs), RowUrl)
  {
    if xs != [] {
      var rest := xs[1..];
      assert Dedup.KeysDistinct(rest, RowUrl);
      SortKeepsUrlsDistinct(rest);
      var s := Sort(rest);
      forall i | 0 <= i < |s| ensures s[i].url != xs[0].url {
        assert s[i] in multiset(rest);
        var j :| 0 <= j < |rest| && rest[j] == s[i];
        assert xs[j + 1] == s[i];
      }
      InsertKeepsUrlsDistinct(xs[0], s);
    }
  }

  /** main.py:281-286: deduplicate by URL keeping the first row, then sort. */
  function Table(rows: seq<Row>): (r: seq<Row>)
    ensures |r| <= |rows|
    ensures Sorted(r)
    ensures Dedup.KeysDistinct(r, RowUrl)
  {
    var d := Dedup.DedupBy(rows, RowUrl);
    SortKeepsUrlsDistinct(d);
    assert |Sort(d)| == |multiset(Sort(d))| == |multiset(d)| == |d|;
    Sort(d)
  }

  /**
   * The output table is ordered, holds one row per URL, and is made of rows of the input:
   * every URL of the input appears, and each appears once.
   */
  lemma TableProperties(rows: seq<Row>)
    ensures Sorted(Table(rows))
    ensures Dedup.KeysDistinct(Table(rows), RowUrl)
    ensures forall r :: r in Table(rows) ==> r in rows
    ensures forall i :: 0 <= i < |rows| ==> Dedup.HasKey(Table(rows), RowUrl, rows[i].url)
  {
    var d := Dedup.DedupBy(rows, RowUrl);
    SortKeepsUrlsDistinct(d);
    forall i | 0 <= i < |rows| ensures Dedup.HasKey(Table(rows), RowUrl, rows[i].url) {
      assert Dedup.HasKey(d, RowUrl, RowUrl(rows[i]));
      var k :| 0 <= k < |d| && RowUrl(d[k]) == rows[i].url;
      assert d[k] in multiset(Table(rows));
      var m :| 0 <= m < |Table(rows)| && Table(rows)[m] == d[k];
    }
    forall r | r in Table(rows) ensures r in rows {
      assert r in multiset(d);
    }
  }

  /**
   * Every row of the output table of one search passed both filters, names a city of the
   * list or the search's own city, and is unscored exactly when no city was detected.
   */
  lemma TableRowsQualify(s: Search, cities: seq<string>, pages: seq<Page>, cfg: Yields.Config)
    ensures forall r :: r in Table(Collect(s, cities, pages, cfg)) ==>
      && (r.gross.GetOr(0.0) >= cfg.minYield || r.net.GetOr(0.0) >= cfg.minYield)
      && (r.price.None? || cfg.priceMin <= r.price.value <= cfg.priceMax)
      && (r.city in cities || r.city == s.city)
      && (r.score == "" <==> r.city == "")
  {
    var rows := Collect(s, cities, pages, cfg);
    TableProperties(rows);
    forall r | r in Table(rows)
      ensures && (r.gross.GetOr(0.0) >= cfg.minYield || r.net.GetOr(0.0) >= cfg.minYield)
              && (r.price.None? || cfg.priceMin <= r.price.value <= cfg.priceMax)
              && (r.city in cities || r.city == s.city)
              && (r.score == "" <==> r.city == "")
    {
      var k :| 0 <= k < |rows| && rows[k] == r;
      var i :| 0 <= i < |pages| && Assemble(s, pages[i].link, cities, pages[i].listing, cfg) == Some(rows[k]);
      AssembledRowQualifies(s, pages[i].link, cities, pages[i].listing, cfg, r);
    }
  }

  /** A row `Assemble` returns passes the filters and carries a detected city and its label. */
  lemma AssembledRowQualifies(s: Search, link: string, cities: seq<string>, f: Listing, cfg: Yields.Config, r: Row)
    requires Assemble(s, link, cities, f, cfg) == Some(r)
    ensures r.gross.GetOr(0.0) >= cfg.minYield || r.net.GetOr(0.0) >= cfg.minYield
    ensures r.price.None? || cfg.priceMin <= r.price.value <= cfg.priceMax
    ensures r.city in cities || r.city == s.city
    ensures r.score == "" <==> r.city == ""
  {
    assert Yields.Qualifies(f.price, f.rent, f.charges, f.tax, cfg);
  }
}
