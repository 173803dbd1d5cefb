/** Worked examples of the location classifier, on the prime-street table itself. */
module LocationExamples {
  import opened Text
  import opened Location

  /** The street occurs in a listing that spells it in any letter case. */
  lemma {:induction false} StreetOccurs(raw: string)
    requires Lower(raw) == Lower("Murs rue du bois merrain")
    ensures ContainsIgnoringCase(raw, "Rue du Bois Merrain")
  {
    var street, h := "Rue du Bois Merrain", "Murs rue du bois merrain";
    assert Lower(h)[5..5 + |street|] == Lower(street) by {
      forall k | 0 <= k < |street| ensures Lower(h)[5 + k] == Lower(street)[k] {
      }
    }
    assert OccursAt(Lower(street), Lower(raw), 5);
  }

  /** A Chartres listing on one of its prime streets scores `N°1`, in any letter case. */
  lemma {:induction false} PrimeAxisExample(raw: string)
    requires Lower(raw) == Lower("Murs rue du bois merrain")
    ensures ScoreLocation("Chartres", raw, AxesPrime) == PrimeAxis
  {
    StreetOccurs(raw);
    assert AxesPrime["Chartres"] == ["Rue du Bois Merrain"];
    PrimeAxisWins("Chartres", raw, AxesPrime, "Rue du Bois Merrain");
  }

  /** "Centre-Ville" without a prime street of the city scores `1bis`. */
  lemma {:induction false} CityCentreExample(raw: string)
    requires raw == "Local Centre-Ville"
    ensures ScoreLocation("Chartres", raw, AxesPrime) == PrimeZone
  {
    assert AxesPrime["Chartres"] == ["Rue du Bois Merrain"];
    assert !ContainsIgnoringCase(raw, "Rue du Bois Merrain");
    assert OccursAt(Lower(PrimeKeywords[0]), Lower(raw), 6);
    assert HasPrimeKeyword(raw);
  }

  /** The first listed city named as a whole word is detected, in any letter case. */
  lemma {:induction false} DetectCityExample(raw: string)
    requires raw == "Murs a LYON"
    ensures DetectCity(raw, ["Lyon", "Lille"], "Paris") == "Lyon"
  {
    assert WholeWordAt(raw, "Lyon", 7);
    assert NamesCity(raw, "Lyon");
  }
}
