/** The three rule chains that label a numeral token: structure
    (`get_structure_type`), value type (`get_value_type`) and grammatical
    case (the scan in `analyze_numeral_details`). Each chain is tried in
    order and the first rule that applies decides. */
module Classifier {
  import opened PyText
  import opened Patterns
  import opened Numerals

  /* ---------------- Structure ---------------- */

  const ComplexSuffixes: seq<string> := [
    "надцять", "дцять", "десят", "сотий", "сот", "ста", "сті", "сота", "соте",
    "тисячний", "мільйонний", "мільярдний", "дванадцятий", "надцятий", "дцятий",
    "десятий", "сотих", "сотою", "одинадцятий"]

  const ComplexBases: seq<string> := [
    "одинадцять", "дванадцять", "тринадцять", "чотирнадцять", "шістнадцять",
    "сімнадцять", "вісімнадцять", "дев'ятнадцять"]

  /** Words that end like a complex numeral but are not to be counted as one. */
  const ExcludedWords: seq<string> := ["сто", "місто", "одно"]

  predicate HasComplexSuffix(lower: string) {
    exists s :: s in ComplexSuffixes && EndsWith(lower, s)
  }

  /** `get_structure_type` (the second, effective definition). */
  function StructureOf(text: string): Structure {
    if ' ' in text then Compound
    else if '-' in text && !HasDigit(text) then Complex
    else if NumericText(text) then Simple
    else WordStructure(Lower(text))
  }

  /** The last rules of `get_structure_type`, on the lower-cased text. */
  function WordStructure(lower: string): Structure {
    if lower in ComplexBases then Complex
    else if HasComplexSuffix(lower) && lower !in ExcludedWords then Complex
    else Simple
  }

  /** A space makes a compound, before any other rule is looked at, and
      nothing else does. */
  lemma StructureCompoundIff(text: string)
    ensures StructureOf(text) == Compound <==> ' ' in text
  {
  }

  /** "Складний" comes from the hyphen rule, the base rule or the suffix rule,
      each reached only when the rules before it do not apply, and from
      nothing else. */
  lemma StructureComplexIff(text: string)
    ensures StructureOf(text) == Complex <==>
            ' ' !in text &&
            (('-' in text && !HasDigit(text)) ||
             (!NumericText(text) &&
              (Lower(text) in ComplexBases ||
               (HasComplexSuffix(Lower(text)) && Lower(text) !in ExcludedWords))))
  {
  }

  /** "Простий" is given to a numeric text and, as the default, to every
      single word that no earlier rule claims. */
  lemma StructureSimpleIff(text: string)
    ensures StructureOf(text) == Simple <==>
            ' ' !in text && !('-' in text && !HasDigit(text)) &&
            (NumericText(text) ||
             (Lower(text) !in ComplexBases &&
              !(HasComplexSuffix(Lower(text)) && Lower(text) !in ExcludedWords)))
  {
  }

  /** A hyphenated word without digits is complex. */
  lemma HyphenWordIsComplex(text: string)
    requires ' ' !in text && '-' in text && !HasDigit(text)
    ensures StructureOf(text) == Complex
  {
  }

  /** A numeral written in digits, possibly with one decimal or fraction
      separator, is simple. */
  lemma NumeralInDigitsIsSimple(text: string)
    requires DigitRun(text) || exists j :: SplitsAsDecimal(text, j)
    ensures StructureOf(text) == Simple
  {
    DecimalBodyIff(text);
    assert NumericText(text);
    NoSpaceOrHyphenInNumeric(text);
  }

  lemma NoSpaceOrHyphenInNumeric(text: string)
    requires NumericText(text)
    ensures ' ' !in text && '-' !in text
  {
    forall i | 0 <= i < |text|
      ensures text[i] != ' ' && text[i] != '-'
    {
      NumericTextChars(text, i);
    }
  }

  /** A Cyrillic lower-case letter. */
  predicate IsCyrillicLower(c: char) {
    'а' <= c <= 'я' || 'ѐ' <= c <= 'џ' || c == 'ґ'
  }

  /** Whatever lower-cases to a Cyrillic letter has no numeric shape there. */
  lemma NotNumericAt(text: string, i: int)
    requires 0 <= i < |text| && IsCyrillicLower(Lower(text)[i])
    ensures !NumericText(text)
  {
    if NumericText(text) {
      NumericTextChars(text, i);
    }
  }

  /** The lower-cased text of the irregular bases is shared by no other rule
      before them, so these are always complex. */
  lemma ComplexBaseIsComplex(text: string)
    requires Lower(text) in ComplexBases
    ensures StructureOf(text) == Complex
  {
    BaseShape(Lower(text));
    LowerKeeps(text, ' ');
    LowerKeeps(text, '-');
    NotNumericAt(text, 0);
  }

  /** The bases are single unhyphenated words starting with a Cyrillic letter. */
  lemma BaseShape(b: string)
    requires b in ComplexBases
    ensures ' ' !in b && '-' !in b && |b| > 0 && IsCyrillicLower(b[0])
  {
  }

  /** Every suffix ends in a Cyrillic letter other than "о". */
  lemma SuffixEnds(s: string)
    requires s in ComplexSuffixes
    ensures |s| > 0 && IsCyrillicLower(s[|s| - 1]) && s[|s| - 1] != 'о'
  {
  }

  /** A single word ending in one of the suffixes is complex unless it is one
      of the excluded words. */
  lemma SuffixIsComplex(text: string)
    requires ' ' !in text && HasComplexSuffix(Lower(text)) && Lower(text) !in ExcludedWords
    ensures StructureOf(text) == Complex
  {
    var l := Lower(text);
    var s :| s in ComplexSuffixes && EndsWith(l, s);
    SuffixEnds(s);
    assert l[|l| - 1] == s[|s| - 1];
    NotNumericAt(text, |l| - 1);
  }

  /** "сто", "місто" and "одно", in any letter case, are simple. */
  lemma ExcludedWordIsSimple(text: string)
    requires Lower(text) in ExcludedWords
    ensures StructureOf(text) == Simple
  {
    LowerKeeps(text, ' ');
    LowerKeeps(text, '-');
  }

  /** No excluded word ends in a complex suffix, so the exclusion never
      changes a result: without it the chain labels every text the same. */
  lemma ExclusionChangesNothing(w: string)
    requires w in ExcludedWords
    ensures !HasComplexSuffix(w)
  {
    assert w[|w| - 1] == 'о';
    forall s | s in ComplexSuffixes
      ensures !EndsWith(w, s)
    {
      SuffixEnds(s);
    }
  }

  /* ---------------- Value type ---------------- */

  const IndefiniteLemmas: seq<string> := [
    "кілька", "декілька", "багато", "небагато", "чимало", "мало", "скільки", "стільки"]

  const CollectiveLemmas: seq<string> := [
    "двоє", "троє", "четверо", "п'ятеро", "шестеро", "семеро", "восьмеро",
    "дев'ятеро", "десятеро", "обидва", "обоє"]

  /** `is_ordinal` as `analyze_numeral_details` computes it. */
  predicate OrdinalFlag(tok: Token) {
    (tok.pos == "ADJ" && Contains(tok.morph, "NumType=Ord")) || Contains(tok.morph, "Order")
  }

  /** `get_value_type(token, is_ordinal)`. */
  function ValueTypeOf(tok: Token, isOrdinal: bool): ValueType {
    var text := Lower(tok.text);
    var lemmaForm := Lower(tok.lemmaForm);
    var morph := tok.morph;
    if isOrdinal || Contains(morph, "NumType=Ord") then Ordinal
    else if lemmaForm in IndefiniteLemmas then Indefinite
    else if Contains(morph, "NumType=Sets") || lemmaForm in CollectiveLemmas then Collective
    else if Contains(morph, "NumType=Frac") || Contains(text, "цілих") || Contains(text, "ціла")
            || HasDecimal(text) then Fractional
    else CardinalProper
  }

  /** The condition of each value-type rule on its own, as a table. */
  ghost predicate ValueRule(tok: Token, isOrdinal: bool, v: ValueType) {
    match v
    case Ordinal => isOrdinal || Contains(tok.morph, "NumType=Ord")
    case Indefinite => Lower(tok.lemmaForm) in IndefiniteLemmas
    case Collective => Contains(tok.morph, "NumType=Sets") || Lower(tok.lemmaForm) in CollectiveLemmas
    case Fractional =>
      Contains(tok.morph, "NumType=Frac") || Contains(Lower(tok.text), "цілих")
      || Contains(Lower(tok.text), "ціла") || exists i, j, k :: DecimalAt(Lower(tok.text), i, j, k)
    case CardinalProper => true
  }

  /** The position of a rule in the table. */
  function Rank(v: ValueType): nat {
    match v
    case Ordinal => 0
    case Indefinite => 1
    case Collective => 2
    case Fractional => 3
    case CardinalProper => 4
  }

  /** The value type is the first rule of the table that applies: its own
      condition holds and that of every earlier rule fails. */
  lemma ValueTypeFirstMatch(tok: Token, isOrdinal: bool, v: ValueType)
    ensures ValueTypeOf(tok, isOrdinal) == v <==>
            ValueRule(tok, isOrdinal, v) && forall w :: Rank(w) < Rank(v) ==> !ValueRule(tok, isOrdinal, w)
  {
    HasDecimalIff(Lower(tok.text));
    var r := ValueTypeOf(tok, isOrdinal);
    if r != v {
      if Rank(r) < Rank(v) {
        assert ValueRule(tok, isOrdinal, r);
      } else {
        assert !ValueRule(tok, isOrdinal, v) by {
          assert forall w :: Rank(w) < Rank(r) ==> !ValueRule(tok, isOrdinal, w);
        }
      }
    }
  }

  /** Ordinal wins whenever the flag or the ordinal marker is present,
      whatever the text and lemma. */
  lemma OrdinalWins(tok: Token, isOrdinal: bool, text: string, lemmaForm: string)
    requires isOrdinal || Contains(tok.morph, "NumType=Ord")
    ensures ValueTypeOf(tok.(text := text, lemmaForm := lemmaForm), isOrdinal) == Ordinal
  {
  }

  /** In the labels `analyze_numeral_details` assigns, a token is ordinal
      exactly when its morphology carries `NumType=Ord` or `Order`: the
      adjective test inside `is_ordinal` adds nothing. */
  lemma OrdinalIff(tok: Token)
    ensures ValueTypeOf(tok, OrdinalFlag(tok)) == Ordinal <==>
            Contains(tok.morph, "NumType=Ord") || Contains(tok.morph, "Order")
  {
  }

  /* ---------------- Case ---------------- */

  /** The case features in the order the scan tries them. */
  const CaseTable: seq<(string, GrammaticalCase)> := [
    ("Case=Nom", Nominative), ("Case=Gen", Genitive), ("Case=Dat", Dative),
    ("Case=Acc", Accusative), ("Case=Ins", Instrumental), ("Case=Loc", Locative),
    ("Case=Voc", Vocative)]

  /** The case of the first table entry from `i` on whose feature occurs in `morph`. */
  function ScanCases(morph: string, i: nat): GrammaticalCase
    decreases |CaseTable| - i
  {
    if i >= |CaseTable| then Undetermined
    else if Contains(morph, CaseTable[i].0) then CaseTable[i].1
    else ScanCases(morph, i + 1)
  }

  /** The case label `analyze_numeral_details` ends up with. */
  function CaseOf(morph: string): GrammaticalCase {
    ScanCases(morph, 0)
  }

  lemma CaseTableDistinct(j: int, k: int)
    requires 0 <= j < |CaseTable| && 0 <= k < |CaseTable| && j != k
    ensures CaseTable[j].1 != CaseTable[k].1 && CaseTable[j].1 != Undetermined
  {
  }

  lemma {:induction false} ScanCasesFirstMatch(morph: string, i: nat, k: int)
    requires i <= k < |CaseTable|
    ensures ScanCases(morph, i) == CaseTable[k].1 <==>
            Contains(morph, CaseTable[k].0) && forall j :: i <= j < k ==> !Contains(morph, CaseTable[j].0)
    decreases |CaseTable| - i
  {
    if i < k {
      ScanCasesFirstMatch(morph, i + 1, k);
      CaseTableDistinct(i, k);
    } else if !Contains(morph, CaseTable[k].0) {
      ScanCasesRange(morph, k + 1);
      if ScanCases(morph, k + 1) != Undetermined {
        var j :| k + 1 <= j < |CaseTable| && ScanCases(morph, k + 1) == CaseTable[j].1;
        CaseTableDistinct(j, k);
      }
    }
  }

  /** The scan from `i` yields undetermined or the case of an entry from `i` on. */
  lemma {:induction false} ScanCasesRange(morph: string, i: nat)
    ensures ScanCases(morph, i) == Undetermined ||
            exists j :: i <= j < |CaseTable| && ScanCases(morph, i) == CaseTable[j].1
    decreases |CaseTable| - i
  {
    if i < |CaseTable| && !Contains(morph, CaseTable[i].0) {
      ScanCasesRange(morph, i + 1);
    }
  }

  lemma {:induction false} ScanCasesNone(morph: string, i: nat)
    requires i <= |CaseTable|
    ensures ScanCases(morph, i) == Undetermined <==>
            forall j :: i <= j < |CaseTable| ==> !Contains(morph, CaseTable[j].0)
    decreases |CaseTable| - i
  {
    if i < |CaseTable| {
      ScanCasesNone(morph, i + 1);
      CaseTableDistinct(i, if i == 0 then 1 else 0);
    }
  }

  /** The case is that of the first feature in the order Nom, Gen, Dat, Acc,
      Ins, Loc, Voc that occurs in the morphology string. */
  lemma CaseOfFirstMatch(morph: string, k: int)
    requires 0 <= k < |CaseTable|
    ensures CaseOf(morph) == CaseTable[k].1 <==>
            Contains(morph, CaseTable[k].0) && forall j :: 0 <= j < k ==> !Contains(morph, CaseTable[j].0)
  {
    ScanCasesFirstMatch(morph, 0, k);
  }

  /** With no case feature in the morphology the case is undetermined, and
      only then. */
  lemma CaseOfUndetermined(morph: string)
    ensures CaseOf(morph) == Undetermined <==>
            forall j :: 0 <= j < |CaseTable| ==> !Contains(morph, CaseTable[j].0)
  {
    ScanCasesNone(morph, 0);
  }

  /* ---------------- All three ---------------- */

  /** The labels of one token, as a value. */
  function Classify(tok: Token): Details {
    Details(ValueTypeOf(tok, OrdinalFlag(tok)), StructureOf(tok.text), CaseOf(tok.morph))
  }

  /** `analyze_numeral_details`: the value type and structure are computed
      first, the case starts undetermined and the scan over the case table
      overwrites it at the first feature present. */
  method AnalyzeNumeralDetails(tok: Token) returns (details: Details)
    ensures details == Classify(tok)
  {
    var morphData := tok.morph;
    var isOrdinal := (tok.pos == "ADJ" && Contains(morphData, "NumType=Ord")) || Contains(morphData, "Order");
    var valueType := ValueTypeOf(tok, isOrdinal);
    var structureType := StructureOf(tok.text);
    details := Details(valueType, structureType, Undetermined);
    var i := 0;
    while i < |CaseTable|
      invariant 0 <= i <= |CaseTable|
      invariant details == Details(ValueTypeOf(tok, OrdinalFlag(tok)), StructureOf(tok.text), Undetermined)
      invariant CaseOf(morphData) == ScanCases(morphData, i)
    {
      var (key, value) := CaseTable[i];
      if Contains(morphData, key) {
        details := details.(caseLabel := value);
        break;
      }
      i := i + 1;
    }
  }
}
