/**
 * The per-listing step of `run()` (main.py:250-276): the fields extracted from one
 * detail page either fail the price band or the yield filter, or become one output row
 * carrying its yields, detected city and location tier.
 */
module Records {
  import opened Options
  import opened Yields
  import opened Location
  import opened Lists

  /** What the extraction step (`parse_generic`) returns for one detail page. */
  datatype Listing = Listing(
    price: Option<real>,
    rent: Option<real>,
    charges: Option<real>,
    tax: Option<real>,
    lease: Option<string>,
    tenant: Option<string>,
    activity: Option<string>,
    raw: string)

  /** One row of the output table (main.py:268-275). `score` is the tier's label. */
  datatype Row = Row(
    source: string,
    domain: string,
    url: string,
    city: string,
    price: Option<real>,
    rent: Option<real>,
    charges: Option<real>,
    tax: Option<real>,
    gross: Option<real>,
    net: Option<real>,
    lease: Option<string>,
    tenant: Option<string>,
    activity: Option<string>,
    score: string)

  /** The search context a detail link was found in. */
  datatype Search = Search(source: string, domain: string, city: string)

  /**
   * main.py:250-276 for one fetched detail page: `None` when the listing fails the price
   * band or the yield filter, otherwise the row `run()` appends.
   */
  function Assemble(s: Search, link: string, cities: seq<string>, f: Listing, cfg: Config): (r: Option<Row>)
    ensures r.Some? <==> Qualifies(f.price, f.rent, f.charges, f.tax, cfg)
    ensures r.Some? ==> r.value.url == link
    ensures r.Some? ==> r.value.gross == GrossYield(f.price, f.rent)
    ensures r.Some? ==> r.value.net == NetYield(f.price, f.rent, f.charges, f.tax)
    ensures r.Some? ==> r.value.city in cities || r.value.city == s.city
    ensures r.Some? ==> (r.value.score == "" <==> r.value.city == "")
    ensures r.Some? ==> r.value.score in {"N\U{00B0}1", "1bis", "2", ""}
    ensures r.Some? ==> r.value.city == DetectCity(f.raw, cities, s.city)
    ensures r.Some? ==> r.value.score == TierOrUnscored(r.value.city, f.raw, AxesPrime).Label()
    ensures r.Some? ==> r.value.source == s.source && r.value.domain == s.domain
    ensures r.Some? ==> && r.value.price == f.price && r.value.rent == f.rent
                        && r.value.charges == f.charges && r.value.tax == f.tax
    ensures r.Some? ==> r.value.lease == f.lease && r.value.tenant == f.tenant && r.value.activity == f.activity
  {
    if PriceRejected(f.price, cfg) then None
    else
      var gross := GrossYield(f.price, f.rent);
      var net := NetYield(f.price, f.rent, f.charges, f.tax);
      if YieldRejected(gross, net, cfg) then None
      else
        var detected := DetectCity(f.raw, cities, s.city);
        var tier := TierOrUnscored(detected, f.raw, AxesPrime);
        Some(Row(s.source, s.domain, link, detected, f.price, f.rent, f.charges, f.tax,
                 gross, net, f.lease, f.tenant, f.activity, tier.Label()))
  }

  /** A detail page of one search: its link and what was extracted from it. */
  datatype Page = Page(link: string, listing: Listing)

  /** What one detail page adds to the rows: its row when it qualifies, nothing otherwise. */
  function RowsOf(s: Search, cities: seq<string>, p: Page, cfg: Config): (rows: seq<Row>)
    ensures |rows| <= 1
    ensures |rows| == 1 <==> Qualifies(p.listing.price, p.listing.rent, p.listing.charges, p.listing.tax, cfg)
    ensures forall r :: r in rows ==> Assemble(s, p.link, cities, p.listing, cfg) == Some(r)
  {
    match Assemble(s, p.link, cities, p.listing, cfg)
    case Some(row) => [row]
    case None => []
  }

  /**
   * The rows `run()` appends for the detail pages of one search, in page order
   * (main.py:240-277 without fetching, throttling or the page counter): each row is the
   * row of some page, and there is at most one per page.
   */
  function Collect(s: Search, cities: seq<string>, pages: seq<Page>, cfg: Config): (rows: seq<Row>)
    ensures |rows| <= |pages|
    ensures forall k :: 0 <= k < |rows| ==>
      exists i :: 0 <= i < |pages| && Assemble(s, pages[i].link, cities, pages[i].listing, cfg) == Some(rows[k])
  {
    var step := p => RowsOf(s, cities, p, cfg);
    GatherBound(pages, step);
    var rows := Gather(pages, step);
    forall k | 0 <= k < |rows|
      ensures exists i :: 0 <= i < |pages| && Assemble(s, pages[i].link, cities, pages[i].listing, cfg) == Some(rows[k])
    {
      GatherFrom(pages, step, k);
      var i :| 0 <= i < |pages| && rows[k] in step(pages[i]);
      assert rows[k] in RowsOf(s, cities, pages[i], cfg);
    }
    rows
  }

  /** When every page qualifies, every page gives a row. */
  lemma AllQualifyAllCollected(s: Search, cities: seq<string>, pages: seq<Page>, cfg: Config)
    requires forall i :: 0 <= i < |pages| ==> Qualifies(pages[i].listing.price, pages[i].listing.rent,
                                                         pages[i].listing.charges, pages[i].listing.tax, cfg)
    ensures |Collect(s, cities, pages, cfg)| == |pages|
  {
    var step := p => RowsOf(s, cities, p, cfg);
    assert forall j :: 0 <= j < |pages| ==> |step(pages[j])| == 1;
    GatherExact(pages, step);
  }

  /** One page contributes its row when it qualifies and nothing otherwise. */
  lemma CollectOnePage(s: Search, cities: seq<string>, p: Page, cfg: Config)
    ensures Collect(s, cities, [p], cfg)
         == (match Assemble(s, p.link, cities, p.listing, cfg) case Some(row) => [row] case None => [])
  {
    GatherOne(p, q => RowsOf(s, cities, q, cfg));
  }

  /**
   * The rows of two runs of pages are the rows of each, in order. With `CollectOnePage`
   * this fixes the result: one row per qualifying page, in page order, and nothing else.
   */
  lemma CollectAppend(s: Search, cities: seq<string>, a: seq<Page>, b: seq<Page>, cfg: Config)
    ensures Collect(s, cities, a + b, cfg) == Collect(s, cities, a, cfg) + Collect(s, cities, b, cfg)
  {
    GatherAppend(a, b, p => RowsOf(s, cities, p, cfg));
  }
}
