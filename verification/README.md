# Commercial-property listing filter: a Dafny model of its decision logic

The program crawls French commercial-property listing sites. It keeps the listings
whose price lies in a configured band and whose rental yield reaches a minimum. It
scores each listing's location, and writes a table ranked by location tier and yield.
This project models the pure decision logic of `main.py` and proves properties of it:

- **Amount reading** (`money`): finds the first `€`-terminated run of digits, spaces,
  periods and commas. It drops the thousands separators, turns the decimal comma into a
  point, and parses the result. Any failure gives `None`.
  Files: `money.dfy` (module `Currency`) and `money_examples.dfy`.
- **City detection and location tiering** (`detect_city`, `score_emplacement`,
  `AXES_PRIME`, and the unscored case of `run()`). Files: `location.dfy` and
  `location_examples.dfy`. `Location.AxesPrime` is the street table itself, entry for
  entry, as a constant map.
- **Yields and the qualification filter** written inline in `run()`: the price band,
  gross and net yield rounded to two decimals, and the minimum-yield test.
  File: `yields.dfy`.
- **Link discovery**, the list-processing tail of `discover_links`: absolutising
  root-relative hrefs, the domain and listing-pattern test, cutting the `#fragment`,
  capping at 200, and order-preserving dedup. Files: `links.dfy` and the generic
  first-occurrence dedup in `dedup.dfy`.
- **Rows and the output table**: assembling a row from one detail page, deduplicating
  rows by URL, and the ranking order (tier, then net yield, then gross yield). Files:
  `records.dfy` and `ranking.dfy`.

`text.dfy` holds the Python string primitives the code relies on:
- `str.isspace` / `\s`;
- `\d`, `\w`, `\b`;
- `str.lower` and `re.IGNORECASE` on literals;
- `in`;
- `replace`;
- the whitespace stripping `float()` does before reading a number. It strips less
  than `str.strip`: the separators U+001C to U+001F are `\s` characters that it keeps.

`options.dfy` holds the `Option` type that stands for Python's `None`.

`lists.dfy` (module `Lists`) holds the shape of the two accumulation loops, over the
anchors of a results page and over the detail pages of a search: each element in turn
appends at most one item. Its lemmas are proved once, for any step.

Amounts are exact reals. `round(x, 2)` is round-half-to-even on the exact value.

`money` uses `re.search` (main.py:72), so it takes the *leftmost* position where
`([\d\s][\d\s\.,]{2,})\s*€` matches, and the group's first character may be
whitespace (`[\d\s]`). `Currency.FindAmount` and `Currency.GreedyGroup` state this.

## Model

| member | source | states |
|---|---|---|
| `Currency.Money` | main.py:68-85 | Empty text gives `None`; any amount returned is non-negative, because no sign character can enter the group |
| `Currency.NoMatchNoAmount` | main.py:71-74 | If the pattern matches nowhere once no-break spaces are read as spaces, the result is `None` |
| `Currency.NoEuroNoAmount` | main.py:72-74 | A text without a euro sign holds no amount |
| `Currency.GreedyGroup` | main.py:72 | The match test at a position holds exactly when the pattern `([\d\s][\d\s\.,]{2,})\s*€` has some parse there; the group taken is the longest group of any parse (greedy `{2,}`), and `\s*` is then empty |
| `Currency.FindAmount` | main.py:72 | `re.search`: returns the leftmost position where the pattern matches, no earlier position matches, and `None` only when no position matches |
| `Currency.NormalizeCharwise` | main.py:75-81 | No space, narrow no-break space or comma survives the normalisation |
| `Currency.NormalizeCounts` | main.py:75-81 | The normalised token has exactly one period per comma of the group, so none of the group's own periods, and every other character as many times as the group |
| `Currency.NormalizeToken` | main.py:75-81 | The four `replace` calls give the one-pass normalisation, so one period per comma of the group and no space, narrow no-break space or comma |
| `Currency.NormalizeIsCharwise` | main.py:75-81 | The four chained `replace` calls, in the source's order, equal the one-pass character-by-character normalisation |
| `Currency.ParseFloat` | main.py:82-85 | `float()` on the token never raises: a non-literal gives `None`, and a value is never negative |
| `Currency.LeadingSeparatorIsNone` | main.py:83 | A token that starts with one of U+001C to U+001F is not a number, because `float()` does not strip those characters |
| `Currency.SeparatorLeadNoAmount` | main.py:72-85 | When the group starts with one of U+001C to U+001F, the pattern matches (they are `\s`), but the text has no amount |
| `Currency.TokenWithoutDigitsIsNone` | main.py:75-85 | A group without digits normalises to a token that is not a number: `None`, not an exception |
| `Currency.TwoCommasIsNone` | main.py:75-85 | A group with two or more commas normalises to a token with two or more points: `None` |
| `Currency.MoneyRoundTrip` | main.py:68-85 | For every natural number n, `" n €"` written in plain digits reads back as exactly n |
| `CurrencyExamples.SpacedThousandsExample` | main.py:68-85 | `"1 250 000 €"` reads as 1250000 |
| `CurrencyExamples.DottedThousandsExample` | main.py:68-85 | `"1.250.000,50 €"` reads as 1250000.5: periods group thousands, the comma is the decimal mark |
| `CurrencyExamples.DecimalExample` | main.py:82-83 | `float("1250000.50")` is 1250000.5 |
| `CurrencyExamples.NoAmountExample` | main.py:72-74 | A text without an amount reads as `None` |
| `CurrencyExamples.TwoDigitsExample` | main.py:72-74 | `"12€"` is too short for the pattern and reads as `None` |
| `CurrencyExamples.FileSeparatorExample` | main.py:68-85 | `"\x1c12 €"` reads as `None`: the file separator enters the group but `float()` rejects it |
| `Text.Contains` | main.py:195 | Python's `n in h`: true exactly when `n` occurs in `h` at some index |
| `Text.ReplaceChar` | main.py:71 | `replace` with a one-character pattern: the pattern character is gone unless the replacement holds it, a one-character replacement keeps the length, and a string without the pattern is unchanged |
| `Text.FloatStrip` | main.py:83 | The stripping `float(val)` does: the result starts and ends with a character `float()` does not strip, and is the input with only a prefix and a suffix of stripped whitespace removed |
| `Text.FloatStripKeepsNonSpace` | main.py:83 | That stripping leaves the count of every character it does not strip unchanged |
| `Text.FloatStripKeepsHead` | main.py:83 | That stripping keeps a first character it does not strip |
| `Location.FindWord` | main.py:186 | The `\b<city>\b` search ignoring case finds a match exactly when the city occurs as a whole word at or after the start position |
| `Location.DetectCity` | main.py:183-190 | Returns the first city in list order that the text names as a whole word, ignoring case; when none is named, returns the fallback |
| `Location.ScoreLocation` | main.py:192-199 | Always one of `N°1`, `1bis`, `2`. `N°1` exactly when a non-empty prime street of the city occurs, ignoring case. `1bis` exactly when no such street occurs but a prime-location phrase does |
| `Location.PrimeAxisWins` | main.py:193-196 | A prime street of the city in the text gives `N°1`, whatever phrases the text also holds |
| `Location.UnknownCityNeverPrimeAxis` | main.py:193 | A city absent from the street table can never score `N°1` |
| `Location.MoreTextNeverLowersScore` | main.py:192-199 | Appending text never lowers the score |
| `Location.TierOrUnscored` | main.py:265 | The tier is unscored exactly when no city was detected; otherwise it is the city's score |
| `Location.OrdinaryOnlyForDetectedCity` | main.py:265 | Tier `2` only arises for a detected city with no prime street and no prime phrase |
| `LocationExamples.PrimeAxisExample` | main.py:192-196 | A Chartres listing on "rue du bois merrain" scores `N°1` whatever the case |
| `LocationExamples.CityCentreExample` | main.py:197-198 | A Chartres listing mentioning "Centre-Ville" but no prime street scores `1bis` |
| `LocationExamples.DetectCityExample` | main.py:183-188 | "Murs a LYON" with cities Lyon, Lille names Lyon, not the fallback |
| `Yields.Round2` | main.py:257-258 | `round(x, 2)` lands within 0.005 of x, on a multiple of 0.01 |
| `Yields.Round2Monotone` | main.py:257-258 | Rounding never reverses the order of two values |
| `Yields.GrossYield` | main.py:257 | Defined exactly when price and rent are both non-zero and price is positive; then within 0.005 of rent/price·100 |
| `Yields.NetYield` | main.py:258 | Defined under the same condition as the gross yield; then within 0.005 of (rent − charges − tax)/price·100, a missing charge or tax counting as 0 |
| `Yields.NetNeverAboveGross` | main.py:257-258 | With non-negative charges and tax, the net yield never exceeds the gross yield, even after rounding |
| `Yields.MissingDeductionsCountAsZero` | main.py:258 | Missing charges and tax give the same net yield as zero ones, which is the gross yield |
| `Yields.YieldExample` | main.py:257-258 | Price 1 000 000, rent 90 000, charges 5 000, tax 3 000 give 9 % gross and 8.2 % net |
| `Yields.Qualifies` | main.py:253-261 | A qualifying listing has an unknown price or one inside the band, and a gross or net yield at the minimum; a rejected one failed the band or had both yields below the minimum |
| `Yields.PriceBandInclusive` | main.py:253 | An unknown price is never rejected by the band, and both ends of the band are inside it |
| `Yields.EitherYieldSuffices` | main.py:261 | Either yield alone reaching the minimum, equality included, passes the yield filter |
| `Yields.YieldBoundaryExample` | main.py:261 | With an 8 % minimum, a 7.99 % gross yield alone is rejected and 8 % passes |
| `Yields.YieldFilterIsGrossFilter` | main.py:257-261 | With non-negative deductions, the yield filter passes exactly when the gross yield, a missing one read as 0, reaches the minimum |
| `Yields.NoYieldNoQualification` | main.py:257-261 | With a positive minimum, a listing whose yields cannot be computed never qualifies |
| `Dedup.DedupBy` | main.py:56-60 | The result has pairwise distinct keys, holds only input elements, keeps every key of the input, and is no longer than the input |
| `Dedup.DedupKeys` | main.py:56-60 | A key is in the result exactly when it is in the input |
| `Dedup.DedupIsFirsts` | main.py:56-60 | Dedup equals the independent filter "keep the element at index j when no earlier element has its key", in input order |
| `Dedup.DedupOfDistinct` | main.py:56-60 | A sequence whose keys are already distinct is left unchanged |
| `Dedup.DedupIdempotent` | main.py:56-60 | Deduplicating twice is the same as deduplicating once |
| `Lists.GatherFrom` | main.py:45-54 | In an accumulation loop, every item of the result was appended by the step of some element |
| `Lists.GatherKeeps` | main.py:45-54 | In an accumulation loop, every item the step appends for some element is in the result |
| `Lists.GatherStep` | main.py:45-54 | An accumulation loop's result after j+1 elements is its result after j, then what element j appends |
| `Links.Absolutise` | main.py:49-50 | The result is never root-relative and ends with the href. A non-root-relative href is unchanged. A root-relative one gets the domain, so it always passes the domain test |
| `Links.ListingTestIgnoresCase` | main.py:52 | The listing test (annonce, fiche, ref, id= or five digits in a row, ignoring case) gives the same answer on an href and on its lower-cased form |
| `Links.StripFragment` | main.py:53 | `split("#")[0]`: a prefix of the href without `#`, followed in the href by `#` or by nothing |
| `Links.LinkOf` | main.py:49-54 | One href adds at most one link to the candidates, and that link has no `#` |
| `Links.Candidates` | main.py:45-54 | No more candidates than hrefs, none containing `#` |
| `Links.CandidatesStep` | main.py:45-54 | One loop iteration: the candidates of the first j+1 hrefs are those of the first j, then the cut link of href j if it is kept and nothing otherwise |
| `Links.CandidatesAppend` | main.py:45-54 | The candidates of two runs of hrefs are the candidates of each, in order |
| `Links.KeptHrefContributes` | main.py:49-54 | Every href that passes the domain and listing tests once absolutised contributes its cut link to the candidates |
| `Links.CandidateFromHref` | main.py:47-54 | Every candidate is the fragment-free form of some absolutised href of the page that passed the domain and listing tests |
| `Links.Take` | main.py:57 | `xs[:n]`: a prefix of length at most n, the whole list when it is shorter |
| `Links.DedupLinks` | main.py:56-60 | The `seen`-set loop computes exactly the first-occurrence dedup |
| `Links.DiscoveredProperties` | main.py:45-60 | The discovered links are pairwise distinct, at most 200, free of `#`, and each comes from a kept href |
| `Links.DiscoverLinks` | main.py:45-60 | The method returns the dedup of the first 200 candidates, with the properties above |
| `Links.CandidateExample` | main.py:49-53 | `/fiche#photos` on domain `a.fr` becomes the single candidate `https://a.fr/fiche` |
| `Records.Assemble` | main.py:250-275 | A row is produced exactly when the listing qualifies. It carries the search's source and domain, the link, the listing's price, rent, charges, tax, lease, tenant and activity unchanged, and the computed gross and net yields. Its city is the one `detect_city` finds in the text, with the search's city as fallback; its score is the label of that city's tier, or empty when no city was detected |
| `Records.RowsOf` | main.py:250-277 | A page adds one row exactly when its listing qualifies, and that row is the one `Assemble` builds |
| `Records.Collect` | main.py:240-277 | Each appended row is the row of some page of the search, and there are no more rows than pages |
| `Records.AllQualifyAllCollected` | main.py:240-277 | When every page qualifies, every page gives a row |
| `Records.CollectOnePage` | main.py:250-277 | One page alone gives its row when it qualifies and no row otherwise |
| `Records.CollectAppend` | main.py:240-277 | The rows of two runs of pages are the rows of each, in page order; with the one-page case, this fixes the rows to one per qualifying page, in order |
| `Ranking.Rank` | main.py:283-284 | Ranks lie in 0..3. The empty label, and any label other than `N°1`, `1bis` and `2`, ranks 3, as `fillna(3)` gives |
| `Ranking.RankFollowsTier` | main.py:283-284 | Ranking a tier's label gives the tier's place in the precedence `N°1`, `1bis`, `2`, unscored |
| `Ranking.Leq` | main.py:285 | The tier rank is the primary sort key: a lower rank always comes first, a higher rank never does, and a row may precede itself |
| `Ranking.LeqTotal` | main.py:285 | Any two rows are comparable under the sort order |
| `Ranking.LeqTransitive` | main.py:285 | The sort order is transitive |
| `Ranking.Sort` | main.py:285 | The result is sorted and a permutation of the input |
| `Ranking.SortedMeaning` | main.py:283-285 | In a sorted table, tier rank never decreases. Within one tier, net yield never increases and a missing net yield is never followed by a present one. Between equal net yields, gross yield never increases |
| `Ranking.SortKeepsUrlsDistinct` | main.py:281-285 | Sorting rows with distinct URLs keeps them distinct |
| `Ranking.Table` | main.py:281-286 | The output table is sorted, has pairwise distinct URLs, and has no more rows than the input |
| `Ranking.TableProperties` | main.py:281-285 | The output table is sorted and has one row per URL. Every row comes from the input, and every URL of the input appears |
| `Ranking.AssembledRowQualifies` | main.py:253-265 | A row that `Assemble` returns passes the price band and the yield filter, and its city and score agree |
| `Ranking.TableRowsQualify` | main.py:253-285 | Every row of the output table passed both filters. Its city is from the list or the search's own city. It is unscored exactly when no city was detected |

## Left out

- `fetch` (HTTP, timeouts, encoding detection) is I/O. The model takes the fetched data as inputs.
- The BeautifulSoup step is a foreign library call: anchor enumeration in `discover_links`, and the HTML-to-text step of `parse_generic`. `Links.DiscoverLinks` takes the list of hrefs, and `Records.Listing` takes the extracted fields and text.
- The label regexes of `parse_generic` (`find_eur`, the lease, tenant and activity patterns) are left out. Their meaning rests on Python's backtracking regex engine. The fields they produce are inputs of `Records.Listing`.
- The orchestration of `run()` is left out:
  - configuration loading;
  - the source, search-URL, city and query loops;
  - the `MAX_PAGES_PER_SOURCE` counter and its early exits;
  - `time.sleep` throttling, CSV writing and logging.

  `Records.Collect` models one search's pages without the page counter.
- The exception handlers of `discover_links`, `detect_city` and `parse_generic` are left out. They only catch failures of the parser library or the regex engine. On strings, the modelled paths never raise.
- Yields.Round2: rounds the exact value half-to-even, while Python rounds the nearest binary double. Results can differ on ties that are not exactly representable.
- Yields.GrossYield: amounts are exact reals; binary floating-point error, infinities and NaN are not modelled.
- Currency.ParseFloat: accepts only the decimal literals a normalised token can form from ASCII digits, whitespace, periods and commas.
- Text.IsDigit: `\d` is modelled as the ASCII digits only. Python's `\d` also matches non-ASCII decimal digits, which `float()` accepts. This affects `Links.HasFiveDigits` (main.py:52) and `Currency.IsLead` and `Currency.IsRunChar` (main.py:72).
- Text.Lower: case folding is modelled for ASCII and Latin-1 letters only. `str.lower` and `re.IGNORECASE` also fold other scripts, and `re.IGNORECASE` matches a few extra characters such as the Kelvin sign. The same range limit applies to `\w` and `\b` (`Text.IsWordChar`).
- Ranking.Sort: the order among rows with equal tier, net and gross yield is not stated. The table library does not promise a stable order for a multi-column sort.
- Ranking.Leq: a missing yield is placed after every present one of the same tier, which matches the library's default placement of missing values. That default is not visible in the code.
- The temporary `__ord` column (main.py:284, 286) is not modelled as a column. `Ranking.Rank` is the value it holds.
