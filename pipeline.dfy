/** `extract_numerals_info`: detection of numeral tokens and assembly of the
    result list. The annotator and the merging of compound numerals are
    outside the model; the method receives the merged tokens of the text. */
module Extraction {
  import opened PyText
  import opened Numerals
  import opened Classifier

  /** A token is reported when the annotator tags it as a numeral, or as an
      adjective whose morphology marks it as an ordinal number. */
  predicate IsNumeral(tok: Token) {
    tok.pos == "NUM" || (tok.pos == "ADJ" && Contains(tok.morph, "NumType=Ord"))
  }

  /** The row built for a numeral token with labels `d`: the token's own
      fields, the labels, and the span `[idx, idx + |text|)`. */
  function RecordOf(tok: Token, d: Details): NumeralRecord {
    NumeralRecord(tok.text, tok.lemmaForm, tok.pos, tok.morph,
                  d.valueType, d.structure, d.caseLabel, tok.idx, tok.idx + |tok.text|)
  }

  /** The list the loop of `extract_numerals_info` builds from the tokens
      `ts`, one record per numeral in token order, each labelled by
      `classify`. The facts below about the list hold for any labelling;
      the extractor labels with `Classify`. */
  function Assemble(ts: seq<Token>, classify: Token -> Details): (r: seq<Entry>)
    ensures |r| <= |ts|
    ensures forall e :: e in r ==> e.Numeral?
  {
    if ts == [] then []
    else
      var last := ts[|ts| - 1];
      Assemble(ts[..|ts| - 1], classify)
      + (if IsNumeral(last) then [Numeral(RecordOf(last, classify(last)))] else [])
  }

  /** The result of the whole call: nothing for blank text, the
      initialisation sentinel when no model is loaded, else the records. */
  method ExtractNumeralsInfo(text: string, modelLoaded: bool, tokens: seq<Token>)
    returns (results: seq<Entry>)
    ensures AllSpace(text) ==> results == []
    ensures !AllSpace(text) && !modelLoaded ==> results == [Failure(InitErrorMessage, InitErrorKind)]
    ensures !AllSpace(text) && modelLoaded ==> results == Assemble(tokens, Classify)
  {
    StripEmpty(text);
    if Strip(text) == [] {
      return [];
    }
    if !modelLoaded {
      return [Failure(InitErrorMessage, InitErrorKind)];
    }
    results := [];
    var i := 0;
    while i < |tokens|
      invariant 0 <= i <= |tokens|
      invariant results == Assemble(tokens[..i], Classify)
    {
      var token := tokens[i];
      var isNumeral := token.pos == "NUM";
      var isPotentialOrdinal := token.pos == "ADJ" && Contains(token.morph, "NumType=Ord");
      AssembleStep(tokens, i, Classify);
      if isNumeral || isPotentialOrdinal {
        var details := AnalyzeNumeralDetails(token);
        var entry := Numeral(NumeralRecord(
          token.text, token.lemmaForm, token.pos, token.morph,
          details.valueType, details.structure, details.caseLabel,
          token.idx, token.idx + |token.text|));
        assert entry == Numeral(RecordOf(token, details));
        results := results + [entry];
      }
      i := i + 1;
    }
    assert tokens[..i] == tokens;
  }

  /** One more token extends the list by its record, if it is a numeral. */
  lemma AssembleStep(ts: seq<Token>, i: int, classify: Token -> Details)
    requires 0 <= i < |ts|
    ensures Assemble(ts[..i + 1], classify)
            == Assemble(ts[..i], classify) + if IsNumeral(ts[i]) then [Numeral(RecordOf(ts[i], classify(ts[i])))] else []
  {
    assert ts[..i + 1][..i] == ts[..i];
  }

  /** The result for a concatenation is the concatenation of the results:
      with the one-token case this determines `Assemble` completely. */
  lemma {:induction false} AssembleAppend(a: seq<Token>, b: seq<Token>, classify: Token -> Details)
    ensures Assemble(a + b, classify) == Assemble(a, classify) + Assemble(b, classify)
    decreases |b|
  {
    if b == [] {
      assert a + b == a;
    } else {
      var b' := b[..|b| - 1];
      assert (a + b)[..|a + b| - 1] == a + b';
      AssembleAppend(a, b', classify);
    }
  }

  lemma AssembleSingle(t: Token, classify: Token -> Details)
    ensures Assemble([t], classify) == if IsNumeral(t) then [Numeral(RecordOf(t, classify(t)))] else []
  {
    assert [t][..0] == [];
  }

  /** An entry is in the result exactly when it is the record of some
      numeral token. */
  lemma {:induction false} AssembleMembers(ts: seq<Token>, classify: Token -> Details, e: Entry)
    ensures e in Assemble(ts, classify) <==>
            exists i :: 0 <= i < |ts| && IsNumeral(ts[i]) && e == Numeral(RecordOf(ts[i], classify(ts[i])))
    decreases |ts|
  {
    if ts != [] {
      var init := ts[..|ts| - 1];
      AssembleMembers(init, classify, e);
      if exists i :: 0 <= i < |ts| && IsNumeral(ts[i]) && e == Numeral(RecordOf(ts[i], classify(ts[i]))) {
        var i :| 0 <= i < |ts| && IsNumeral(ts[i]) && e == Numeral(RecordOf(ts[i], classify(ts[i])));
        if i < |ts| - 1 {
          assert init[i] == ts[i];
        }
      }
      if e in Assemble(init, classify) {
        var i :| 0 <= i < |init| && IsNumeral(init[i]) && e == Numeral(RecordOf(init[i], classify(init[i])));
        assert ts[i] == init[i];
      }
    }
  }

  /** The numeral tokens of `ts`, in order, filtered from the left. */
  function NumeralTokens(ts: seq<Token>): (ns: seq<Token>)
    ensures |ns| <= |ts|
    ensures forall t :: t in ns ==> t in ts && IsNumeral(t)
  {
    if ts == [] then []
    else (if IsNumeral(ts[0]) then [ts[0]] else []) + NumeralTokens(ts[1..])
  }

  /** The result holds one record per numeral token, in token order, each
      carrying the token's text, lemma, tag and morphology, its labels, and
      the span that starts at the token's offset and is as long as its text. */
  lemma {:induction false} AssembleIsMap(ts: seq<Token>, classify: Token -> Details)
    ensures |Assemble(ts, classify)| == |NumeralTokens(ts)|
    ensures forall p :: 0 <= p < |NumeralTokens(ts)| ==>
              Assemble(ts, classify)[p] == Numeral(RecordOf(NumeralTokens(ts)[p], classify(NumeralTokens(ts)[p])))
    ensures forall p :: 0 <= p < |NumeralTokens(ts)| ==>
              var e, t := Assemble(ts, classify)[p], NumeralTokens(ts)[p];
              e.record.text == t.text && e.record.lemmaForm == t.lemmaForm &&
              e.record.posTag == t.pos && e.record.morphology == t.morph &&
              e.record.start == t.idx && e.record.end - e.record.start == |t.text| &&
              e.record.valueType == classify(t).valueType &&
              e.record.structure == classify(t).structure &&
              e.record.caseLabel == classify(t).caseLabel
    decreases |ts|
  {
    if ts != [] {
      assert ts == [ts[0]] + ts[1..];
      AssembleAppend([ts[0]], ts[1..], classify);
      AssembleSingle(ts[0], classify);
      AssembleIsMap(ts[1..], classify);
    }
  }

  /** Text without numeral tokens gives an empty result, and only such text. */
  lemma AssembleEmpty(ts: seq<Token>, classify: Token -> Details)
    ensures Assemble(ts, classify) == [] <==> forall i :: 0 <= i < |ts| ==> !IsNumeral(ts[i])
  {
    if Assemble(ts, classify) != [] {
      AssembleMembers(ts, classify, Assemble(ts, classify)[0]);
    }
    if exists i :: 0 <= i < |ts| && IsNumeral(ts[i]) {
      var i :| 0 <= i < |ts| && IsNumeral(ts[i]);
      AssembleMembers(ts, classify, Numeral(RecordOf(ts[i], classify(ts[i]))));
    }
  }

  /** The token's text stands at its offset in the analysed text. */
  predicate TokenIn(text: string, tok: Token) {
    tok.idx + |tok.text| <= |text| && text[tok.idx..tok.idx + |tok.text|] == tok.text
  }

  /** The record's span lies inside the text and covers exactly its text. */
  predicate RecordIn(text: string, r: NumeralRecord) {
    r.start <= r.end <= |text| && r.end - r.start == |r.text| && text[r.start..r.end] == r.text
  }

  /** When every token stands where the annotator says, so does every record. */
  lemma {:induction false} AssembleSpans(text: string, ts: seq<Token>, classify: Token -> Details)
    requires forall i :: 0 <= i < |ts| ==> TokenIn(text, ts[i])
    ensures forall e :: e in Assemble(ts, classify) ==> RecordIn(text, e.record)
    decreases |ts|
  {
    if ts != [] {
      AssembleSpans(text, ts[..|ts| - 1], classify);
      assert TokenIn(text, ts[|ts| - 1]);
    }
  }

  /** Records end no later than the tokens they come from. */
  lemma {:induction false} AssembleBounded(ts: seq<Token>, classify: Token -> Details, bound: int)
    requires forall i :: 0 <= i < |ts| ==> ts[i].idx + |ts[i].text| <= bound
    ensures forall e :: e in Assemble(ts, classify) ==> e.record.end <= bound
    decreases |ts|
  {
    if ts != [] {
      AssembleBounded(ts[..|ts| - 1], classify, bound);
    }
  }

  /** The annotator's tokens follow each other without overlapping. */
  predicate TokensOrdered(ts: seq<Token>) {
    forall i, j :: 0 <= i < j < |ts| ==> ts[i].idx + |ts[i].text| <= ts[j].idx
  }

  /** Records are sorted by position and do not overlap. */
  predicate RecordsOrdered(r: seq<Entry>) {
    forall p, q :: 0 <= p < q < |r| ==>
      r[p].Numeral? && r[q].Numeral? && r[p].record.end <= r[q].record.start
  }

  /** Records come in the order of the text and do not overlap. */
  lemma {:induction false} AssembleOrdered(ts: seq<Token>, classify: Token -> Details)
    requires TokensOrdered(ts)
    ensures RecordsOrdered(Assemble(ts, classify))
    decreases |ts|
  {
    if ts != [] {
      var init := ts[..|ts| - 1];
      var last := ts[|ts| - 1];
      assert TokensOrdered(init);
      AssembleOrdered(init, classify);
      AssembleBounded(init, classify, last.idx);
      var r := Assemble(ts, classify);
      var pre := Assemble(init, classify);
      forall p, q | 0 <= p < q < |r|
        ensures r[p].Numeral? && r[q].Numeral? && r[p].record.end <= r[q].record.start
      {
        if q >= |pre| {
          assert r[p] in pre;
        } else {
          assert r[p] == pre[p] && r[q] == pre[q];
        }
      }
    }
  }
}
