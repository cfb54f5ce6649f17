# Ukrainian numeral extractor — Dafny model

This project models the classification core of the Ukrainian numeral
extractor in `num/extractor.py`. The core takes the annotator's tokens, with
compound numerals already merged, and does three things:

- It keeps the numeral tokens: those tagged `NUM`, and adjectives whose
  morphology carries `NumType=Ord`.
- It gives each kept token three labels:
  - a value type (ordinal, indefinite, collective, fractional, proper cardinal);
  - a structure (compound, complex, simple);
  - a grammatical case.

  Each label comes from an ordered chain of rules where the first match wins.
- It returns the records in token order. Blank input gives an empty list. A
  missing annotator model gives a single error sentinel.

Files:

- `text.dfy` (`PyText`): the Python string operations the rules use. These
  are substring, prefix and suffix tests, ASCII `\d`, `str.isspace` /
  `str.strip()`, and `str.lower()` on ASCII and Cyrillic capitals.
- `patterns.dfy` (`Patterns`): the three regular expressions as executable
  predicates: `re.match(r'^\d+$')` is `DigitRun` by definition, and the
  executable tests for `re.match(r'^\d+[.,\\/]\d+$')` and
  `re.search(r'\d+[.,\\/]\d+')` are proved equal to what those patterns
  mean. `NumericText` adds, by definition, Python's `$` before a final newline.
- `model.dfy` (`Numerals`): tokens, the label enumerations with their
  Ukrainian display strings, result records and the error sentinel.
- `classify.dfy` (`Classifier`):
  - the structure chain `StructureOf`;
  - the value-type chain `ValueTypeOf`;
  - the case scan (`CaseTable`, `ScanCases` / `CaseOf`);
  - the imperative `analyze_numeral_details` as `AnalyzeNumeralDetails`, a
    method whose loop over the case table stops at the first feature found.
- `pipeline.dfy` (`Extraction`): the detection predicate, the result list
  `Assemble`, and the imperative `extract_numerals_info` as
  `ExtractNumeralsInfo`, a loop that appends one record per numeral token.
- `examples_cases.dfy` (`Cases`): labels of concrete tokens from the
  example sentences.

The annotator is a parameter. `ExtractNumeralsInfo` receives a flag that
says whether the model loaded, and the token sequence `nlp` and
`merge_numerals` would have produced. The `str(token.morph)` rendering is
the token's `morph` string.

Points where the code's behaviour is easy to misread:

- `is_ordinal` is also true when the morphology contains `Order`, whatever
  the part of speech (`num/extractor.py:94`).
- The compound rule fires on any `' '` in the text, leading and trailing
  ones included (`num/extractor.py:46`). It does not fire on other whitespace.
- None of "сто", "місто" and "одно" ends in any of the listed suffixes,
  so the exclusion on `num/extractor.py:66` never changes a result
  (`Classifier.ExclusionChangesNothing`). A token "місто" that the annotator
  tags as a noun is not reported at all (`Cases.CityIsNotNumeral`).
- The code never sorts: records come in token order. Records are sorted and
  non-overlapping when the annotator's tokens are
  (`Extraction.AssembleOrdered`).
- The anchored numeric patterns also match a text with one final newline
  after the digits, because that is Python's `$`.

Remarks from the proofs, none of which changes a result:

- The digit rule of the structure chain yields the same label as the final
  default. A purely numeric text would otherwise fall through to "Простий"
  as well, because digits and separators never match a Cyrillic base or
  suffix.
- The ADJ half of `is_ordinal` is subsumed by the `NumType=Ord` test inside
  `get_value_type` (`Classifier.OrdinalIff`).

The model is deterministic: `ExtractNumeralsInfo` pins its result down as a
function of its inputs. Two calls on the same text and tokens therefore give
the same list.

## Model

| member | source | states |
|---|---|---|
| Extraction.ExtractNumeralsInfo | num/extractor.py:122-152 | blank or all-whitespace text gives `[]`; otherwise a missing model gives exactly the one `ERROR` sentinel with the initialisation message; otherwise the result is the record list of the tokens, labelled by the classifier |
| Extraction.Assemble | num/extractor.py:131-150 | at most one entry per token, and every entry is a numeral record (never a sentinel) |
| Extraction.NumeralTokens | num/extractor.py:133-137 | the filtered tokens are drawn from the input and all pass the detection predicate |
| Extraction.AssembleIsMap | num/extractor.py:133-150 | the result has exactly one record per detected token, in token order; the p-th record carries the p-th detected token's text, lemma, POS tag and morphology, its three labels, `start == idx` and `end - start == len(text)` |
| Extraction.AssembleMembers | num/extractor.py:133-150 | an entry is in the result if and only if it is the record of some token that passes the detection predicate |
| Extraction.AssembleEmpty | num/extractor.py:133-152 | the result is empty exactly when no token passes the detection predicate |
| Extraction.AssembleAppend | num/extractor.py:133-150 | the result for a concatenation of token sequences is the concatenation of the results |
| Extraction.AssembleSingle | num/extractor.py:133-150 | one token gives its record when it is a numeral and nothing otherwise |
| Extraction.AssembleStep | num/extractor.py:133-150 | one more token extends the result by that token's record exactly when it is a numeral |
| Extraction.AssembleSpans | num/extractor.py:148-149 | if every token's text stands at its offset in the input, every record's span lies in the input and covers exactly the record's text |
| Extraction.AssembleBounded | num/extractor.py:148-149 | no record ends after the last point any token ends |
| Extraction.AssembleOrdered | num/extractor.py:133-150 | if the tokens follow one another without overlap, the records are sorted by position and do not overlap |
| Classifier.AnalyzeNumeralDetails | num/extractor.py:92-120 | the details the loop builds are the value type (with `is_ordinal` as on line 94), the structure of the text, and the case of the first case feature found (undetermined when none is) |
| Classifier.StructureOf | num/extractor.py:44-69 | (the structure chain of the second `get_structure_type`: space, hyphen without digit, numeric patterns, then `WordStructure`; characterised by `StructureCompoundIff`, `StructureComplexIff` and `StructureSimpleIff`) |
| Classifier.WordStructure | num/extractor.py:61-69 | (the base, suffix-with-exclusion and default rules on the lower-cased text; characterised by `StructureComplexIff` and `StructureSimpleIff`) |
| Classifier.StructureComplexIff | num/extractor.py:44-69 | the structure is complex if and only if the text has no space and either has a hyphen and no digit, or is not numeric and its lower-cased form is a base or ends in a suffix without being an excluded word |
| Classifier.StructureSimpleIff | num/extractor.py:44-69 | the structure is simple if and only if the text has no space, is not a digit-free hyphenated text, and is either numeric or, lower-cased, neither a base nor a non-excluded word with a complex suffix; this is the default of line 69 |
| Classifier.ValueTypeOf | num/extractor.py:71-90 | (the value-type chain with lower-cased text and lemma; characterised by `ValueTypeFirstMatch`, `OrdinalWins`, `OrdinalIff`) |
| Classifier.OrdinalFlag | num/extractor.py:94 | (`is_ordinal` as `analyze_numeral_details` computes it; its effect is stated by `OrdinalIff`) |
| Classifier.ScanCases | num/extractor.py:105-118 | (the ordered scan of the case table from entry i; characterised by `ScanCasesFirstMatch`, `ScanCasesNone`, `ScanCasesRange`) |
| Classifier.CaseOf | num/extractor.py:102-118 | (the case label the scan leaves, starting from "Не визначено"; characterised by `CaseOfFirstMatch` and `CaseOfUndetermined`) |
| Classifier.Classify | num/extractor.py:96-118 | (the three labels of one token; `AnalyzeNumeralDetails` is proved to compute it) |
| Extraction.IsNumeral | num/extractor.py:134-137 | (the detection test; `AssembleIsMap`, `AssembleMembers` and `AssembleEmpty` state what it selects) |
| Extraction.RecordOf | num/extractor.py:140-150 | (the row built for a numeral token; its fields are stated by `AssembleIsMap`) |
| Patterns.NumericText | num/extractor.py:52 | (the two anchored `re.match` patterns; characterised by `DecimalBodyIff` and `NumericTextChars`) |
| Patterns.HasDecimal | num/extractor.py:87 | (the `re.search` for `\d+[.,\\/]\d+`; characterised by `HasDecimalIff`) |
| PyText.HasDigit | num/extractor.py:49 | (`re.search(r'\d', text)` over ASCII digits, by definition) |
| PyText.Strip | num/extractor.py:123 | (`str.strip()`; characterised by `StripEmpty`, `TrimLeftShape`, `TrimRightShape`) |
| Classifier.StructureCompoundIff | num/extractor.py:46-47 | the structure is compound if and only if the text contains a space |
| Classifier.HyphenWordIsComplex | num/extractor.py:49-50 | a space-free text with a hyphen and no digit is complex |
| Classifier.NumeralInDigitsIsSimple | num/extractor.py:52-53 | a digit run, or digits, one of `. , \ /`, then digits, is simple |
| Classifier.NoSpaceOrHyphenInNumeric | num/extractor.py:46-53 | a text the numeric patterns accept has no space and no hyphen, so the two earlier rules never pre-empt them |
| Classifier.NotNumericAt | num/extractor.py:52 | a text with a Cyrillic letter after lower-casing is not numeric |
| Classifier.ComplexBaseIsComplex | num/extractor.py:59-64 | a text whose lower-cased form is one of the eight irregular bases is complex |
| Classifier.BaseShape | num/extractor.py:59 | every irregular base is one word, without a hyphen, that starts with a Cyrillic letter |
| Classifier.SuffixEnds | num/extractor.py:55-58 | every complex suffix ends in a Cyrillic letter other than "о" |
| Classifier.SuffixIsComplex | num/extractor.py:66-67 | a space-free text whose lower-cased form ends in a complex suffix and is not an excluded word is complex |
| Classifier.ExcludedWordIsSimple | num/extractor.py:66-69 | "сто", "місто" and "одно", in any letter case, are simple |
| Classifier.ExclusionChangesNothing | num/extractor.py:55-66 | no excluded word ends in a complex suffix |
| Classifier.ValueTypeFirstMatch | num/extractor.py:71-90 | the value type is v if and only if v's rule holds and no rule tried before v holds (ordinal, indefinite, collective, fractional, then the proper-cardinal default), for every v |
| Classifier.OrdinalWins | num/extractor.py:76-77 | with `is_ordinal` or `NumType=Ord` in the morphology, the value type is ordinal whatever the text and lemma |
| Classifier.OrdinalIff | num/extractor.py:76-94 | with `is_ordinal` computed as on line 94, the value type is ordinal if and only if the morphology contains `NumType=Ord` or `Order` |
| Classifier.CaseOfFirstMatch | num/extractor.py:102-118 | the case is that of entry k if and only if entry k's feature occurs in the morphology and no earlier entry's feature (order Nom, Gen, Dat, Acc, Ins, Loc, Voc) does |
| Classifier.CaseOfUndetermined | num/extractor.py:102-118 | the case is undetermined if and only if no case feature occurs in the morphology |
| Classifier.ScanCasesFirstMatch | num/extractor.py:115-118 | the scan from entry i stops at entry k if and only if k is the first entry from i on whose feature occurs |
| Classifier.ScanCasesNone | num/extractor.py:115-118 | the scan from entry i ends undetermined if and only if no feature from i on occurs |
| Classifier.ScanCasesRange | num/extractor.py:115-118 | the scan from entry i yields undetermined or the case of an entry from i on |
| Classifier.CaseTableDistinct | num/extractor.py:105-113 | the seven table entries have seven distinct cases, none undetermined |
| Numerals.LabelsDistinct | num/extractor.py:47-113 | distinct labels have distinct Ukrainian display strings, for all three label kinds |
| PyText.StripEmpty | num/extractor.py:123-124 | `not text.strip()` holds exactly for the empty and all-whitespace strings |
| PyText.TrimLeftShape | num/extractor.py:123 | `lstrip` drops the longest all-whitespace prefix and keeps the rest |
| PyText.TrimRightShape | num/extractor.py:123 | `rstrip` drops the longest all-whitespace suffix and keeps the rest |
| PyText.TrimLeftEmpty | num/extractor.py:123 | `lstrip` gives the empty string exactly for all-whitespace strings |
| PyText.TrimRightEmpty | num/extractor.py:123 | `rstrip` gives the empty string exactly for all-whitespace strings |
| PyText.ContainsChar | num/extractor.py:46-49 | a one-character substring test is character membership |
| PyText.MissingChar | num/extractor.py:76-87 | a string lacking one of the characters of p does not contain p |
| PyText.LowerChar | num/extractor.py:61-73 | a character is changed by lower-casing exactly when it is an ASCII or Cyrillic capital |
| PyText.LowerKeeps | num/extractor.py:46-61 | a space, hyphen, newline or digit is in the lower-cased text exactly when it is in the text |
| PyText.LowerCharFixed | num/extractor.py:61 | no character other than a space, hyphen, newline or digit itself lower-cases to that character |
| Patterns.LeadingDigits | num/extractor.py:52 | the length returned is that of the longest all-digit prefix |
| Patterns.DecimalBodyIff | num/extractor.py:52 | the executable test for `^\d+[.,\\/]\d+$` holds if and only if the text splits into digits, one separator, digits |
| Patterns.NumericTextChars | num/extractor.py:52 | a text the anchored patterns accept holds only digits, separators and possibly one final newline |
| Patterns.HasDecimalIff | num/extractor.py:87 | the scan for `\d+[.,\\/]\d+` succeeds if and only if some substring is digits, a separator, digits |
| Patterns.HasDecimalAdjacent | num/extractor.py:87 | a digit, separator, digit triple at any position is found by the scan |
| Patterns.DecimalAtShift | num/extractor.py:87 | a match in the text after its first character is a match in the whole text, one position further on |
| Patterns.DigitRunSlice | num/extractor.py:52-87 | `\d+` matches a slice exactly when it is non-empty and every position in it is a digit |
| Cases.FiveIsSimple | num/test_extractor.py:18-23 | the token "5" tagged NUM is reported and is simple |
| Cases.FiveIsCardinal | num/test_extractor.py:18-23 | the token "5" with `NumType=Card` is a proper cardinal |
| Cases.FiveNotOrdinal | num/test_extractor.py:18-23 | a step of the "5" example: the morphology `NumType=Card` contains neither `NumType=Ord` nor `Order` |
| Cases.FiveNotGrouped | num/test_extractor.py:18-23 | a step of the "5" example: the morphology `NumType=Card` contains neither `NumType=Sets` nor `NumType=Frac` |
| Cases.FiveForms | num/test_extractor.py:18-23 | a step of the "5" example: "5" lower-cases to itself, is in neither lemma list and holds no fraction word or pattern |
| Cases.FiveHasNoCase | num/test_extractor.py:18-23 | the morphology `NumType=Card` has no case feature, so the case is undetermined |
| Cases.FirstIsOrdinal | num/test_extractor.py:27-31 | the adjective "перше" with `NumType=Ord` is reported, as an ordinal |
| Cases.CityIsNotNumeral | num/extractor.py:133-137 | a token "місто" tagged as a noun is not reported |
| Cases.ElevenIsComplex | num/extractor.py:59-64 | "одинадцять" is complex |
| Cases.MergedNumeralsAreCompound | num/extractor.py:46-47 | the merged tokens "3 цілих 5" and "двадцять п'ять" are compound |

## Left out

- Loading and downloading the annotator model (`num/extractor.py:1-15`) is
  I/O and foreign-library initialisation. It is the `modelLoaded` flag.
- Running the annotator (`nlp(text)`, `num/extractor.py:129`) is a call into
  a library this model cannot see. The tokens it yields are a parameter. No
  link between the text and the tokens is assumed, except where
  `AssembleSpans` and `AssembleOrdered` require it.
- `merge_numerals` (`num/extractor.py:17-32`) is a wrapper over the
  library's matcher and retokenizer. What those do with overlapping matches
  is defined inside the library, so the model takes the merged tokens as
  given.
- The `except Exception` path returning `RUNTIME_ERROR`
  (`num/extractor.py:154-155`) can only be triggered by the external
  annotator, which is not modelled.
- The first definition of `get_structure_type` (`num/extractor.py:34-42`) is
  shadowed by the second one and never runs.
- The `isinstance(text, str)` test (`num/extractor.py:123`) always holds,
  because the input is typed as a string.
- PyText.IsDigit: `\d` is ASCII `0`-`9` only. Python also accepts other
  Unicode decimal digits.
- PyText.LowerChar: lower-casing covers ASCII capitals, the Cyrillic
  capitals U+0400-U+042F and "Ґ". Every other character is left unchanged,
  where Python also lowers other capitals, among them further Latin and
  Cyrillic ones such as "À" and "Ѣ", and other scripts. No word list, suffix
  or marker the rules compare against contains such a character.
- PyText.Lower: lower-casing is modelled character by character and keeps
  the length, where Python can make a string longer ("İ" lowers to two
  characters). This changes no label, because no list entry, suffix or
  marker contains such a character.
- Extraction.AssembleSpans: the span property is proved for tokens whose
  text stands at their offset in the input. The annotator guarantees this,
  but the model does not establish it.
- Extraction.AssembleOrdered: sortedness is proved for non-overlapping
  tokens in text order. The annotator guarantees this, but the model does
  not establish it. The code itself never sorts.
- `num/app.py` (the interactive user interface) is not part of this model.
- `num/test_extractor.py` is not modelled. It depends on the live
  annotator and on data files, and serves only as the source of the
  concrete examples in `Cases`.
