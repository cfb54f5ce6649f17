/** Example sentences of the extractor's tests, as the tokens the annotator would
    produce for them, with the labels the classifier gives those tokens. */
module Cases {
  import opened PyText
  import opened Patterns
  import opened Numerals
  import opened Classifier
  import opened Extraction

  const Five := Token("5", "5", "NUM", "NumType=Card", 9)

  /** "У мене є 5 яблук": "5" is reported, as a simple numeral... */
  lemma FiveIsSimple()
    ensures IsNumeral(Five) && StructureOf(Five.text) == Simple
  {
    assert DigitRun(Five.text);
  }

  /** ... and a proper cardinal ... */
  lemma FiveIsCardinal()
    ensures ValueTypeOf(Five, OrdinalFlag(Five)) == CardinalProper
  {
    FiveNotOrdinal();
    FiveNotGrouped();
    FiveForms();
  }

  /** A step of the example: the morphology of "5" names no ordinal and no order ... */
  lemma FiveNotOrdinal()
    ensures !Contains(Five.morph, "NumType=Ord") && !Contains(Five.morph, "Order")
  {
    MissingChar(Five.morph, "NumType=Ord", 'O');
    MissingChar(Five.morph, "Order", 'O');
  }

  /** ... and no set or fraction. */
  lemma FiveNotGrouped()
    ensures !Contains(Five.morph, "NumType=Sets") && !Contains(Five.morph, "NumType=Frac")
  {
    MissingChar(Five.morph, "NumType=Sets", 'S');
    MissingChar(Five.morph, "NumType=Frac", 'F');
  }

  /** A step of the example: neither the text nor the lemma "5" is in a word list or a fraction. */
  lemma FiveForms()
    ensures Lower("5") == "5"
    ensures "5" !in IndefiniteLemmas && "5" !in CollectiveLemmas
    ensures !Contains("5", "цілих") && !Contains("5", "ціла") && !HasDecimal("5")
  {
    assert Lower("5") == "5";
  }

  /** ... without a case. */
  lemma FiveHasNoCase()
    ensures CaseOf(Five.morph) == Undetermined
  {
    forall j | 0 <= j < |CaseTable|
      ensures !Contains(Five.morph, CaseTable[j].0)
    {
      MissingChar(Five.morph, CaseTable[j].0, 's');
    }
    CaseOfUndetermined(Five.morph);
  }

  const First := Token("перше", "перший", "ADJ", "Case=Acc|Gender=Neut|Number=Sing|NumType=Ord", 10)

  /** "Він посів перше місце": the adjective "перше" is reported, as an ordinal. */
  lemma FirstIsOrdinal()
    ensures IsNumeral(First) && ValueTypeOf(First, OrdinalFlag(First)) == Ordinal
  {
    assert OccursAt(First.morph, "NumType=Ord", 33);
  }

  /** "місто" is tagged as a noun, so it is never reported. */
  lemma CityIsNotNumeral()
    ensures !IsNumeral(Token("місто", "місто", "NOUN", "Case=Nom|Gender=Neut|Number=Sing", 0))
  {
  }

  /** "одинадцять років": an irregular base is complex. */
  lemma ElevenIsComplex()
    ensures StructureOf("одинадцять") == Complex
  {
    assert Lower("одинадцять") == "одинадцять";
    ComplexBaseIsComplex("одинадцять");
  }

  /** "3 цілих 5" and "двадцять п'ять", merged into one token each, are compound. */
  lemma MergedNumeralsAreCompound()
    ensures StructureOf("3 цілих 5") == Compound
    ensures StructureOf("двадцять п'ять") == Compound
  {
    assert "3 цілих 5"[1] == ' ';
    assert "двадцять п'ять"[8] == ' ';
  }
}
