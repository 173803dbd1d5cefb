/** The worked examples of the amount reader, stated as lemmas about `Money`. */
module CurrencyExamples {
  import opened Options
  import opened Text
  import opened Currency

  /** A separator followed by digits normalises to the separator's image and the digits. */
  lemma {:induction false} CharwiseSeparated(sep: char, ds: string)
    requires AllDigits(ds)
    ensures NormalizeCharwise([sep] + ds) == NormalizeChar(sep) + ds
  {
    assert ([sep] + ds)[0] == sep;
    assert ([sep] + ds)[1..] == ds;
    CharwiseOfDigits(ds);
  }

  /** A token of digit groups separated by spaces, with a trailing space. */
  lemma {:induction false} SpacedThousandsToken(lead: string, g1: string, g2: string)
    requires AllDigits(lead) && AllDigits(g1) && AllDigits(g2)
    ensures NormalizeCharwise(lead + ([' '] + g1) + ([' '] + g2) + [' ']) == lead + g1 + g2
  {
    var t1 := lead + ([' '] + g1);
    CharwiseOfDigits(lead);
    CharwiseSeparated(' ', g1);
    CharwiseAppend(lead, [' '] + g1);
    assert NormalizeCharwise(t1) == lead + g1;
    var t2 := t1 + ([' '] + g2);
    CharwiseSeparated(' ', g2);
    CharwiseAppend(t1, [' '] + g2);
    assert NormalizeCharwise(t2) == lead + g1 + g2;
    assert NormalizeCharwise([' ']) == [] by { assert [' '][1..] == []; }
    CharwiseAppend(t2, [' ']);
  }

  lemma {:induction false} SpacedThousandsShape(text: string)
    requires text == "1 250 000 \U{20AC}"
    ensures LeadingAmount(text, 10) && NormalizeCharwise(text[..10]) == "1250000"
  {
    assert text[..10] == "1" + ([' '] + "250") + ([' '] + "000") + [' '];
    SpacedThousandsToken("1", "250", "000");
    assert "1" + "250" + "000" == "1250000";
  }

  /** "1 250 000 €" reads as 1250000: spaces are thousands separators. */
  lemma {:induction false} SpacedThousandsExample(text: string)
    requires text == "1 250 000 \U{20AC}"
    ensures Money(text) == Some(1250000.0)
  {
    SpacedThousandsShape(text);
    assert NatToDigits(1250000) == "1250000";
    MoneyOfLeadingDigits(text, 10, "1250000", 1250000);
  }

  /** A token of digit groups separated by periods, with a comma decimal part and a trailing space. */
  lemma {:induction false} DottedThousandsToken(lead: string, g1: string, g2: string, g3: string)
    requires AllDigits(lead) && AllDigits(g1) && AllDigits(g2) && AllDigits(g3)
    ensures NormalizeCharwise(lead + (['.'] + g1) + (['.'] + g2) + ([','] + g3) + [' '])
         == lead + g1 + g2 + (['.'] + g3)
  {
    var t1 := lead + (['.'] + g1);
    CharwiseOfDigits(lead);
    CharwiseSeparated('.', g1);
    CharwiseAppend(lead, ['.'] + g1);
    assert NormalizeCharwise(t1) == lead + g1;
    var t2 := t1 + (['.'] + g2);
    CharwiseSeparated('.', g2);
    CharwiseAppend(t1, ['.'] + g2);
    assert NormalizeCharwise(t2) == lead + g1 + g2;
    var t3 := t2 + ([','] + g3);
    CharwiseSeparated(',', g3);
    CharwiseAppend(t2, [','] + g3);
    assert NormalizeCharwise(t3) == lead + g1 + g2 + (['.'] + g3);
    assert NormalizeCharwise([' ']) == [] by { assert [' '][1..] == []; }
    CharwiseAppend(t3, [' ']);
  }

  lemma {:induction false} DottedThousandsShape(text: string)
    requires text == "1.250.000,50 \U{20AC}"
    ensures LeadingAmount(text, 13) && NormalizeCharwise(text[..13]) == "1250000.50"
  {
    assert text[..13] == "1" + (['.'] + "250") + (['.'] + "000") + ([','] + "50") + [' '];
    DottedThousandsToken("1", "250", "000", "50");
    assert "1" + "250" + "000" + (['.'] + "50") == "1250000.50";
  }

  lemma {:induction false} DecimalExampleValue()
    ensures DigitsValue("1250000") as real + DigitsValue("50") as real / Pow10(|"50"|) as real == 1250000.5
  {
    assert NatToDigits(1250000) == "1250000";
    DigitsRoundTrip(1250000);
    assert NatToDigits(50) == "50";
    DigitsRoundTrip(50);
    assert Pow10(2) == 100;
  }

  /** "1250000.50" is read as 1250000.5. */
  lemma {:induction false} DecimalExample(u: string)
    requires u == "1250000.50"
    ensures ParseFloat(u) == Some(1250000.5)
  {
    assert u == "1250000" + "." + "50" && AllDigits("1250000") && AllDigits("50");
    ParseDecimalParts(u, "1250000", "50");
    DecimalExampleValue();
  }

  /** "1.250.000,50 €" reads as 1250000.5: periods group thousands, the comma is the decimal mark. */
  lemma {:induction false} DottedThousandsExample(text: string)
    requires text == "1.250.000,50 \U{20AC}"
    ensures Money(text) == Some(1250000.5)
  {
    DottedThousandsShape(text);
    MoneyOfLeadingAmount(text, 13);
    DecimalExample(NormalizeCharwise(text[..13]));
  }

  /** A text without any amount reads as `None`. */
  lemma {:induction false} NoAmountExample(text: string)
    requires text == "no amount here"
    ensures Money(text) == None
  {
    NoEuroNoAmount(text);
  }

  /** Two digits alone before the euro sign are too short for the pattern: `None`. */
  lemma {:induction false} TwoDigitsExample(text: string)
    requires text == "12\U{20AC}"
    ensures Money(text) == None
  {
    assert ReplaceChar(text, Nbsp, " ") == text;
    assert RunEnd(text, 1) == 2;
    assert RunEnd(text, 2) == 2;
    assert RunEnd(text, 3) == 3;
    NoMatchNoAmount(text);
  }

  /**
   * `"\x1c12 €"`: `\s` takes the file separator U+001C into the group, and `float()`
   * does not strip it, so there is no amount.
   */
  lemma {:induction false} FileSeparatorExample(text: string)
    requires text == "\U{001C}12 \U{20AC}"
    ensures Money(text) == None
  {
    assert LeadingAmount(text, 4);
    SeparatorLeadNoAmount(text, 4);
  }
}
