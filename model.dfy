/** The data the numeral extractor consumes and produces: annotated tokens,
    the three classification labels with the Ukrainian strings shown to the
    user, and the records of the result list. */
module Numerals {

  /** One token of the annotator's output, after compound numerals are merged.
      `morph` is the annotator's rendering of the feature set, for example
      "Case=Nom|Gender=Masc|NumType=Card"; `idx` is the character offset of
      the token in the analysed text. */
  datatype Token = Token(text: string, lemmaForm: string, pos: string, morph: string, idx: nat)

  /** The value type, in the order in which the classifier tries them. */
  datatype ValueType = Ordinal | Indefinite | Collective | Fractional | CardinalProper

  function ValueLabel(v: ValueType): string {
    match v
    case Ordinal => "Порядковий"
    case Indefinite => "Кількісний (неозначено-кількісний)"
    case Collective => "Кількісний (збірний)"
    case Fractional => "Кількісний (дробовий)"
    case CardinalProper => "Кількісний (власне)"
  }

  /** Compound: several words; Complex: one word built from several stems;
      Simple: one stem. */
  datatype Structure = Compound | Complex | Simple

  function StructureLabel(s: Structure): string {
    match s
    case Compound => "Складений"
    case Complex => "Складний"
    case Simple => "Простий"
  }

  datatype GrammaticalCase =
    Nominative | Genitive | Dative | Accusative | Instrumental | Locative | Vocative | Undetermined

  function CaseLabel(c: GrammaticalCase): string {
    match c
    case Nominative => "Називний"
    case Genitive => "Родовий"
    case Dative => "Давальний"
    case Accusative => "Знахідний"
    case Instrumental => "Орудний"
    case Locative => "Місцевий"
    case Vocative => "Кличний"
    case Undetermined => "Не визначено"
  }

  /** The displayed strings tell the labels apart, so a result row's strings
      determine its classification. */
  lemma LabelsDistinct(v: ValueType, w: ValueType, s: Structure, t: Structure,
                       c: GrammaticalCase, d: GrammaticalCase)
    ensures ValueLabel(v) == ValueLabel(w) ==> v == w
    ensures StructureLabel(s) == StructureLabel(t) ==> s == t
    ensures CaseLabel(c) == CaseLabel(d) ==> c == d
  {
  }

  /** The three labels the classifier gives one token. */
  datatype Details = Details(valueType: ValueType, structure: Structure, caseLabel: GrammaticalCase)

  /** One row of the result list for a numeral token; the span is `[start, end)`. */
  datatype NumeralRecord = NumeralRecord(
    text: string, lemmaForm: string, posTag: string, morphology: string,
    valueType: ValueType, structure: Structure, caseLabel: GrammaticalCase,
    start: nat, end: nat)

  /** An element of the list `extract_numerals_info` returns: a numeral
      record, or a sentinel carrying a message and a type marker. */
  datatype Entry = Numeral(record: NumeralRecord) | Failure(message: string, kind: string)

  const InitErrorMessage: string := "Помилка ініціалізації NLP-моделі."
  const InitErrorKind: string := "ERROR"
}
