/**
 * City detection and location tiering (main.py:136-199, 264-265): which known city a
 * listing's text names, and how good its commercial location is, from a table of prime
 * streets per city and a list of generic prime-location phrases.
 */
module Location {
  import opened Text

  /**
   * The location-quality score written to the "Emplacement (score)" column: `N°1`
   * (prime street), `1bis` (generic prime-location phrase), `2` (neither), or the
   * empty string when no city was detected and nothing was scored.
   */
  datatype Tier = PrimeAxis | PrimeZone | Ordinary | Unscored {

    /** The string the source writes for this tier. */
    function Label(): string {
      match this
      case PrimeAxis => "N\U{00B0}1"
      case PrimeZone => "1bis"
      case Ordinary => "2"
      case Unscored => ""
    }
  }

  /** `AXES_PRIME` (main.py:136-181): well-known high-footfall streets of each city. */
  const AxesPrime: map<string, seq<string>> := map[
    "Paris" := ["Champs-\U{00C9}lys\U{00E9}es", "Rue de Rivoli", "Boulevard Haussmann", "Rue Saint-Honor\U{00E9}", "Avenue Montaigne"],
    "Lyon" := ["Rue de la R\U{00E9}publique", "Rue Victor Hugo", "Rue Merci\U{00E8}re"],
    "Marseille" := ["Rue Saint-Ferr\U{00E9}ol", "La Canebi\U{00E8}re"],
    "Bordeaux" := ["Rue Sainte-Catherine", "Cours de l'Intendance"],
    "Toulouse" := ["Rue d'Alsace-Lorraine", "Rue Saint-Rome"],
    "Lille" := ["Rue de B\U{00E9}thune", "Rue Neuve"],
    "Nice" := ["Avenue Jean M\U{00E9}decin", "Rue Mass\U{00E9}na"],
    "Nantes" := ["Rue Cr\U{00E9}billon", "Rue du Calvaire"],
    "Montpellier" := ["Rue de la Loge", "Com\U{00E9}die"],
    "Rennes" := ["Rue Le Bastard", "Rue d'Antrain"],
    "Strasbourg" := ["Grand'Rue", "Rue des Grandes Arcades"],
    "Grenoble" := ["Rue F\U{00E9}lix Poulat", "Rue de Bonne"],
    "Dijon" := ["Rue de la Libert\U{00E9}"],
    "Angers" := ["Rue Lenepveu"],
    "Reims" := ["Rue de Vesle"],
    "Tours" := ["Rue Nationale"],
    "Clermont-Ferrand" := ["Rue du 11 Novembre"],
    "Saint-\U{00C9}tienne" := ["Rue des Martyrs de Vingr\U{00E9}"],
    "N\U{00EE}mes" := ["Rue de l'Aspic"],
    "Avignon" := ["Rue de la R\U{00E9}publique"],
    "B\U{00E9}ziers" := ["All\U{00E9}es Paul Riquet"],
    "Perpignan" := ["Rue Mar\U{00E9}chal Foch"],
    "Toulon" := ["Rue d'Alger"],
    "Le Havre" := ["Rue de Paris"],
    "Rouen" := ["Rue du Gros-Horloge"],
    "Orl\U{00E9}ans" := ["Rue de la R\U{00E9}publique"],
    "Metz" := ["Rue Serpenoise"],
    "Nancy" := ["Rue Saint-Jean"],
    "Caen" := ["Rue Saint-Pierre"],
    "Poitiers" := ["Rue Magenta"],
    "Limoges" := ["Rue de la Boucherie"],
    "Annecy" := ["Rue Carnot"],
    "Aix-en-Provence" := ["Cours Mirabeau"],
    "Bayonne" := ["Rue d'Espagne"],
    "Pau" := ["Rue Joffre"],
    "La Rochelle" := ["Rue du Palais"],
    "Valence" := ["Rue Victor Hugo"],
    "Chamb\U{00E9}ry" := ["Rue de Boigne"],
    "Mulhouse" := ["Rue du Sauvage"],
    "Brest" := ["Rue de Siam"],
    "Quimper" := ["Rue K\U{00E9}r\U{00E9}on"],
    "Vannes" := ["Rue Saint-Vincent"],
    "Amiens" := ["Rue des Trois Cailloux"],
    "Chartres" := ["Rue du Bois Merrain"]
  ]

  /**
   * The alternatives of the pattern
   * `(centre[- ]ville|angle|rue piétonne|fort flux|zone prime|coeur de ville)` (main.py:197),
   * with `centre[- ]ville` spelled out as its two strings.
   */
  const PrimeKeywords: seq<string> := [
    "centre-ville", "centre ville", "angle", "rue pi\U{00E9}tonne", "fort flux", "zone prime", "coeur de ville"
  ]

  // ---------------------------------------------------------------------------
  // City detection (main.py:183-190)
  // ---------------------------------------------------------------------------

  /** `t[i]` exists and is a `\w` character. */
  predicate IsWordAt(t: string, i: int) {
    0 <= i < |t| && IsWordChar(t[i])
  }

  /** `\b` at position `i`: a word character on exactly one side. */
  predicate IsBoundary(t: string, i: int) {
    IsWordAt(t, i - 1) != IsWordAt(t, i)
  }

  /** `\b<c>\b` matches `t` at `i`, ignoring case (the pattern of main.py:186, with `c` escaped). */
  predicate WholeWordAt(t: string, c: string, i: int) {
    && 0 <= i && i + |c| <= |t|
    && EqualIgnoringCase(t[i..i + |c|], c)
    && IsBoundary(t, i)
    && IsBoundary(t, i + |c|)
  }

  /** `re.search` for the whole word `c` from position `i` on. */
  function FindWord(t: string, c: string, i: nat): (b: bool)
    requires i <= |t|
    ensures b <==> exists j :: i <= j && WholeWordAt(t, c, j)
    decreases |t| - i
  {
    if WholeWordAt(t, c, i) then true
    else if i == |t| then false
    else
      var b := FindWord(t, c, i + 1);
      assert (exists j :: i <= j && WholeWordAt(t, c, j)) ==> b by {
        if exists j :: i <= j && WholeWordAt(t, c, j) {
          var j :| i <= j && WholeWordAt(t, c, j);
          assert j != i;
        }
      }
      b
  }

  /** The city name `c` occurs in `t` as a whole word, in any case. */
  predicate NamesCity(t: string, c: string) {
    FindWord(t, c, 0)
  }

  /** `cities[k]` is named in `raw` and no earlier city of the list is. */
  ghost predicate IsFirstNamed(raw: string, cities: seq<string>, k: int) {
    && 0 <= k < |cities|
    && NamesCity(raw, cities[k])
    && forall j :: 0 <= j < k ==> !NamesCity(raw, cities[j])
  }

  /**
   * `detect_city` (main.py:183-190): the first city of the list, in list order, named
   * in the text as a whole word, or the fallback when none is. The source's
   * `fallback or ""` is the fallback itself, since the fallback is a string.
   */
  function DetectCity(raw: string, cities: seq<string>, fallback: string): (r: string)
    ensures (exists k :: IsFirstNamed(raw, cities, k) && r == cities[k])
         || ((forall k :: 0 <= k < |cities| ==> !NamesCity(raw, cities[k])) && r == fallback)
  {
    if cities == [] then fallback
    else if NamesCity(raw, cities[0]) then
      assert IsFirstNamed(raw, cities, 0);
      cities[0]
    else
      var r := DetectCity(raw, cities[1..], fallback);
      assert forall k :: 1 <= k < |cities| ==> cities[k] == cities[1..][k - 1];
      assert (exists k :: IsFirstNamed(raw, cities, k) && r == cities[k])
          || ((forall k :: 0 <= k < |cities| ==> !NamesCity(raw, cities[k])) && r == fallback) by {
        if exists k :: IsFirstNamed(raw, cities[1..], k) && r == cities[1..][k] {
          var k :| IsFirstNamed(raw, cities[1..], k) && r == cities[1..][k];
          assert IsFirstNamed(raw, cities, k + 1);
        }
      }
      r
  }

  // ---------------------------------------------------------------------------
  // Location tiering (main.py:192-199)
  // ---------------------------------------------------------------------------

  /** `axes_map.get(city, [])`. */
  function AxesOf(axes: map<string, seq<string>>, city: string): seq<string> {
    if city in axes then axes[city] else []
  }

  /** Some non-empty street of `streets` occurs in `raw`, ignoring case (main.py:194-196). */
  predicate HasAxis(raw: string, streets: seq<string>) {
    exists k :: 0 <= k < |streets| && streets[k] != "" && ContainsIgnoringCase(raw, streets[k])
  }

  /** One of the generic prime-location phrases occurs in `raw`, ignoring case (main.py:197). */
  predicate HasPrimeKeyword(raw: string) {
    exists k :: 0 <= k < |PrimeKeywords| && ContainsIgnoringCase(raw, PrimeKeywords[k])
  }

  /**
   * `score_emplacement` (main.py:192-199): a prime street of the city beats a generic
   * phrase, which beats nothing. The result is always one of the three scored tiers.
   */
  function ScoreLocation(city: string, raw: string, axes: map<string, seq<string>>): (r: Tier)
    ensures r != Unscored
    ensures r == PrimeAxis <==> HasAxis(raw, AxesOf(axes, city))
    ensures r == PrimeZone <==> !HasAxis(raw, AxesOf(axes, city)) && HasPrimeKeyword(raw)
  {
    if HasAxis(raw, AxesOf(axes, city)) then PrimeAxis
    else if HasPrimeKeyword(raw) then PrimeZone
    else Ordinary
  }

  /** A prime street of the city in the text scores `N°1`, whatever phrases the text also holds. */
  lemma {:induction false} PrimeAxisWins(city: string, raw: string, axes: map<string, seq<string>>, street: string)
    requires street in AxesOf(axes, city) && street != ""
    requires ContainsIgnoringCase(raw, street)
    ensures ScoreLocation(city, raw, axes) == PrimeAxis
  {
    var k :| 0 <= k < |AxesOf(axes, city)| && AxesOf(axes, city)[k] == street;
    assert HasAxis(raw, AxesOf(axes, city));
  }

  /** A city absent from the table can never score `N°1`. */
  lemma {:induction false} UnknownCityNeverPrimeAxis(city: string, raw: string, axes: map<string, seq<string>>)
    requires city !in axes
    ensures ScoreLocation(city, raw, axes) != PrimeAxis
  {
  }

  /**
   * Appending text never lowers the score: whatever occurs in `raw` still occurs in
   * `raw + more`.
   */
  lemma {:induction false} MoreTextNeverLowersScore(city: string, raw: string, more: string, axes: map<string, seq<string>>)
    ensures ScoreLocation(city, raw, axes) == PrimeAxis ==> ScoreLocation(city, raw + more, axes) == PrimeAxis
    ensures ScoreLocation(city, raw, axes) == PrimeZone ==> ScoreLocation(city, raw + more, axes) != Ordinary
  {
    forall n | ContainsIgnoringCase(raw, n)
      ensures ContainsIgnoringCase(raw + more, n)
    {
      ContainsInLonger(raw, more, n);
    }
    var streets := AxesOf(axes, city);
    if HasAxis(raw, streets) {
      var k :| 0 <= k < |streets| && streets[k] != "" && ContainsIgnoringCase(raw, streets[k]);
      assert ContainsIgnoringCase(raw + more, streets[k]);
    }
    if HasPrimeKeyword(raw) {
      var k :| 0 <= k < |PrimeKeywords| && ContainsIgnoringCase(raw, PrimeKeywords[k]);
      assert ContainsIgnoringCase(raw + more, PrimeKeywords[k]);
    }
  }

  /** Case-insensitive containment survives appending text. */
  lemma {:induction false} ContainsInLonger(raw: string, more: string, n: string)
    requires ContainsIgnoringCase(raw, n)
    ensures ContainsIgnoringCase(raw + more, n)
  {
    var h, h' := Lower(raw), Lower(raw + more);
    var m := Lower(n);
    var i :| OccursAt(m, h, i);
    assert h'[i..i + |m|] == h[i..i + |m|];
    assert OccursAt(m, h', i);
  }

  /**
   * main.py:265: a detected city is scored, an undetected one (the empty string) gets the
   * empty, unscored tier.
   */
  function TierOrUnscored(detected: string, raw: string, axes: map<string, seq<string>>): (r: Tier)
    ensures r == Unscored <==> detected == ""
    ensures detected != "" ==> r == ScoreLocation(detected, raw, axes)
  {
    if detected != "" then ScoreLocation(detected, raw, axes) else Unscored
  }

  /** Tier `2` is a judgement about a detected city: an undetected one is never `2`. */
  lemma {:induction false} OrdinaryOnlyForDetectedCity(detected: string, raw: string, axes: map<string, seq<string>>)
    requires TierOrUnscored(detected, raw, axes) == Ordinary
    ensures detected != ""
    ensures !HasAxis(raw, AxesOf(axes, detected)) && !HasPrimeKeyword(raw)
  {
  }
}
