/** Worked examples run through the decoder and the four passes: the words
    of the comment above pipe in index.ts and of the sentence in main, plus
    닫힌, an extra example for the palatalization guard at index.ts:122-131. */
module Samples {
  import opened Hangul
  import opened Rules
  import opened Pipeline

  /** A string literal as JavaScript holds it, for text inside the Basic
      Multilingual Plane: one code unit per character. */
  function CodeUnits(text: string): (u: seq<CodeUnit>)
    requires forall i :: 0 <= i < |text| ==> text[i] as int < 0x1_0000
    ensures |u| == |text|
  {
    seq(|text|, i requires 0 <= i < |text| => text[i] as int as CodeUnit)
  }

  /** What pipe prints: getOrigins of every unit. */
  function Printed(s: seq<Krch>): seq<seq<string>> {
    seq(|s|, k requires 0 <= k < |s| => Origins(s[k]))
  }

  /** Decoding words of two and three syllables, given each syllable's
      decoding. */
  lemma DecodedPair(a: CodeUnit, b: CodeUnit, x: Krch, y: Krch)
    requires InSyllableBlock(a) && InSyllableBlock(b)
    requires ParseKorean(a) == x && ParseKorean(b) == y
    ensures DecodeWord([a, b]) == [x, y]
  {
  }

  lemma DecodedTriple(a: CodeUnit, b: CodeUnit, c: CodeUnit, x: Krch, y: Krch, z: Krch)
    requires InSyllableBlock(a) && InSyllableBlock(b) && InSyllableBlock(c)
    requires ParseKorean(a) == x && ParseKorean(b) == y && ParseKorean(c) == z
    ensures DecodeWord([a, b, c]) == [x, y, z]
  {
  }

  /** The passes with the ending rule moved to the front. */
  function EndingRuleFirst(s: seq<Krch>): seq<Krch> {
    Tensified(Aspirated(Palatalized(Neutralized(s))))
  }

  // The syllables and words of the examples below, decoded.

  lemma ByeotDecodes()
    ensures ParseKorean(48341) == Krch('ㅂ', 'ㅕ', Final('ㅌ'))
  {
    var _ := ParseKoreanOfIndices(7, 6, 25);
  }

  lemma IDecodes()
    ensures ParseKorean(51060) == Krch('ㅇ', 'ㅣ', Absent)
  {
    var _ := ParseKoreanOfIndices(11, 20, 0);
  }

  lemma ByeoDecodes()
    ensures ParseKorean(48316) == Krch('ㅂ', 'ㅕ', Absent)
  {
    var _ := ParseKoreanOfIndices(7, 6, 0);
  }

  lemma ChiDecodes()
    ensures ParseKorean(52824) == Krch('ㅊ', 'ㅣ', Absent)
  {
    var _ := ParseKoreanOfIndices(14, 20, 0);
  }

  lemma ReohDecodes()
    ensures ParseKorean(47111) == Krch('ㄹ', 'ㅓ', Final('ㅎ'))
  {
    var _ := ParseKoreanOfIndices(5, 4, 27);
  }

  lemma GeDecodes()
    ensures ParseKorean(44172) == Krch('ㄱ', 'ㅔ', Absent)
  {
    var _ := ParseKoreanOfIndices(0, 5, 0);
  }

  lemma ReoDecodes()
    ensures ParseKorean(47084) == Krch('ㄹ', 'ㅓ', Absent)
  {
    var _ := ParseKoreanOfIndices(5, 4, 0);
  }

  lemma KeDecodes()
    ensures ParseKorean(52992) == Krch('ㅋ', 'ㅔ', Absent)
  {
    var _ := ParseKoreanOfIndices(15, 5, 0);
  }

  lemma GudDecodes()
    ensures ParseKorean(44403) == Krch('ㄱ', 'ㅜ', Final('ㄷ'))
  {
    var _ := ParseKoreanOfIndices(0, 13, 7);
  }

  lemma GuDecodes()
    ensures ParseKorean(44396) == Krch('ㄱ', 'ㅜ', Absent)
  {
    var _ := ParseKoreanOfIndices(0, 13, 0);
  }

  lemma JiDecodes()
    ensures ParseKorean(51648) == Krch('ㅈ', 'ㅣ', Absent)
  {
    var _ := ParseKoreanOfIndices(12, 20, 0);
  }

  lemma DamDecodes()
    ensures ParseKorean(45812) == Krch('ㄷ', 'ㅏ', Final('ㅁ'))
  {
    var _ := ParseKoreanOfIndices(3, 0, 16);
  }

  lemma DaDecodes()
    ensures ParseKorean(45796) == Krch('ㄷ', 'ㅏ', Absent)
  {
    var _ := ParseKoreanOfIndices(3, 0, 0);
  }

  lemma TtaDecodes()
    ensures ParseKorean(46384) == Krch('ㄸ', 'ㅏ', Absent)
  {
    var _ := ParseKoreanOfIndices(4, 0, 0);
  }

  lemma DatDecodes()
    ensures ParseKorean(45803) == Krch('ㄷ', 'ㅏ', Final('ㄷ'))
  {
    var _ := ParseKoreanOfIndices(3, 0, 7);
  }

  lemma HinDecodes()
    ensures ParseKorean(55180) == Krch('ㅎ', 'ㅣ', Final('ㄴ'))
  {
    var _ := ParseKoreanOfIndices(18, 20, 4);
  }

  lemma ChinDecodes()
    ensures ParseKorean(52828) == Krch('ㅊ', 'ㅣ', Final('ㄴ'))
  {
    var _ := ParseKoreanOfIndices(14, 20, 4);
  }

  lemma ReotDecodes()
    ensures ParseKorean(47091) == Krch('ㄹ', 'ㅓ', Final('ㄷ'))
  {
    var _ := ParseKoreanOfIndices(5, 4, 7);
  }

  lemma KkeDecodes()
    ensures ParseKorean(44760) == Krch('ㄲ', 'ㅔ', Absent)
  {
    var _ := ParseKoreanOfIndices(1, 5, 0);
  }

  lemma ByeotISpelled()
    ensures DecodeWord(CodeUnits("볕이")) == [Krch('ㅂ', 'ㅕ', Final('ㅌ')), Krch('ㅇ', 'ㅣ', Absent)]
  {
    ByeotDecodes(); IDecodes();
    DecodedPair(48341, 51060, Krch('ㅂ', 'ㅕ', Final('ㅌ')), Krch('ㅇ', 'ㅣ', Absent));
  }

  lemma ByeoChiSpelled()
    ensures DecodeWord(CodeUnits("벼치")) == [Krch('ㅂ', 'ㅕ', Absent), Krch('ㅊ', 'ㅣ', Absent)]
  {
    ByeoDecodes(); ChiDecodes();
    DecodedPair(48316, 52824, Krch('ㅂ', 'ㅕ', Absent), Krch('ㅊ', 'ㅣ', Absent));
  }

  lemma IReohGeSpelled()
    ensures DecodeWord(CodeUnits("이렇게")) == [Krch('ㅇ', 'ㅣ', Absent), Krch('ㄹ', 'ㅓ', Final('ㅎ')), Krch('ㄱ', 'ㅔ', Absent)]
  {
    IDecodes(); ReohDecodes(); GeDecodes();
    DecodedTriple(51060, 47111, 44172, Krch('ㅇ', 'ㅣ', Absent), Krch('ㄹ', 'ㅓ', Final('ㅎ')), Krch('ㄱ', 'ㅔ', Absent));
  }

  lemma IReoKeSpelled()
    ensures DecodeWord(CodeUnits("이러케")) == [Krch('ㅇ', 'ㅣ', Absent), Krch('ㄹ', 'ㅓ', Absent), Krch('ㅋ', 'ㅔ', Absent)]
  {
    IDecodes(); ReoDecodes(); KeDecodes();
    DecodedTriple(51060, 47084, 52992, Krch('ㅇ', 'ㅣ', Absent), Krch('ㄹ', 'ㅓ', Absent), Krch('ㅋ', 'ㅔ', Absent));
  }

  lemma GudISpelled()
    ensures DecodeWord(CodeUnits("굳이")) == [Krch('ㄱ', 'ㅜ', Final('ㄷ')), Krch('ㅇ', 'ㅣ', Absent)]
  {
    GudDecodes(); IDecodes();
    DecodedPair(44403, 51060, Krch('ㄱ', 'ㅜ', Final('ㄷ')), Krch('ㅇ', 'ㅣ', Absent));
  }

  lemma GuJiSpelled()
    ensures DecodeWord(CodeUnits("구지")) == [Krch('ㄱ', 'ㅜ', Absent), Krch('ㅈ', 'ㅣ', Absent)]
  {
    GuDecodes(); JiDecodes();
    DecodedPair(44396, 51648, Krch('ㄱ', 'ㅜ', Absent), Krch('ㅈ', 'ㅣ', Absent));
  }

  lemma DamDaSpelled()
    ensures DecodeWord(CodeUnits("담다")) == [Krch('ㄷ', 'ㅏ', Final('ㅁ')), Krch('ㄷ', 'ㅏ', Absent)]
  {
    DamDecodes(); DaDecodes();
    DecodedPair(45812, 45796, Krch('ㄷ', 'ㅏ', Final('ㅁ')), Krch('ㄷ', 'ㅏ', Absent));
  }

  lemma DamTtaSpelled()
    ensures DecodeWord(CodeUnits("담따")) == [Krch('ㄷ', 'ㅏ', Final('ㅁ')), Krch('ㄸ', 'ㅏ', Absent)]
  {
    DamDecodes(); TtaDecodes();
    DecodedPair(45812, 46384, Krch('ㄷ', 'ㅏ', Final('ㅁ')), Krch('ㄸ', 'ㅏ', Absent));
  }

  lemma DatHinSpelled()
    ensures DecodeWord(CodeUnits("닫힌")) == [Krch('ㄷ', 'ㅏ', Final('ㄷ')), Krch('ㅎ', 'ㅣ', Final('ㄴ'))]
  {
    DatDecodes(); HinDecodes();
    DecodedPair(45803, 55180, Krch('ㄷ', 'ㅏ', Final('ㄷ')), Krch('ㅎ', 'ㅣ', Final('ㄴ')));
  }

  lemma DaChinSpelled()
    ensures DecodeWord(CodeUnits("다친")) == [Krch('ㄷ', 'ㅏ', Absent), Krch('ㅊ', 'ㅣ', Final('ㄴ'))]
  {
    DaDecodes(); ChinDecodes();
    DecodedPair(45796, 52828, Krch('ㄷ', 'ㅏ', Absent), Krch('ㅊ', 'ㅣ', Final('ㄴ')));
  }

  lemma ByeoJiSpelled()
    ensures DecodeWord(CodeUnits("벼지")) == [Krch('ㅂ', 'ㅕ', Absent), Krch('ㅈ', 'ㅣ', Absent)]
  {
    ByeoDecodes(); JiDecodes();
    DecodedPair(48316, 51648, Krch('ㅂ', 'ㅕ', Absent), Krch('ㅈ', 'ㅣ', Absent));
  }

  lemma IReotKkeSpelled()
    ensures DecodeWord(CodeUnits("이럳께")) == [Krch('ㅇ', 'ㅣ', Absent), Krch('ㄹ', 'ㅓ', Final('ㄷ')), Krch('ㄲ', 'ㅔ', Absent)]
  {
    IDecodes(); ReotDecodes(); KkeDecodes();
    DecodedTriple(51060, 47091, 44760, Krch('ㅇ', 'ㅣ', Absent), Krch('ㄹ', 'ㅓ', Final('ㄷ')), Krch('ㄲ', 'ㅔ', Absent));
  }

  // The passes on the decoded words.

  lemma PassesOnByeotI()
    ensures Pronounced([Krch('ㅂ', 'ㅕ', Final('ㅌ')), Krch('ㅇ', 'ㅣ', Absent)])
            == [Krch('ㅂ', 'ㅕ', Cleared), Krch('ㅊ', 'ㅣ', Absent)]
  {
    var s0 := [Krch('ㅂ', 'ㅕ', Final('ㅌ')), Krch('ㅇ', 'ㅣ', Absent)];
    var s1 := [Krch('ㅂ', 'ㅕ', Cleared), Krch('ㅊ', 'ㅣ', Absent)];
    PairwiseOfTwo(s0[0], s0[1], PalatalRule);
    PairwiseOfTwo(s1[0], s1[1], AspirationRule);
    PairwiseOfTwo(s1[0], s1[1], TensionRule);
  }

  lemma EndingRuleFirstOnByeotI()
    ensures EndingRuleFirst([Krch('ㅂ', 'ㅕ', Final('ㅌ')), Krch('ㅇ', 'ㅣ', Absent)])
            == [Krch('ㅂ', 'ㅕ', Cleared), Krch('ㅈ', 'ㅣ', Absent)]
  {
    var s1 := [Krch('ㅂ', 'ㅕ', Final('ㄷ')), Krch('ㅇ', 'ㅣ', Absent)];
    var s2 := [Krch('ㅂ', 'ㅕ', Cleared), Krch('ㅈ', 'ㅣ', Absent)];
    PairwiseOfTwo(s1[0], s1[1], PalatalRule);
    PairwiseOfTwo(s2[0], s2[1], AspirationRule);
    PairwiseOfTwo(s2[0], s2[1], TensionRule);
  }

  lemma PassesOnIReohGe()
    ensures Pronounced([Krch('ㅇ', 'ㅣ', Absent), Krch('ㄹ', 'ㅓ', Final('ㅎ')), Krch('ㄱ', 'ㅔ', Absent)])
            == [Krch('ㅇ', 'ㅣ', Absent), Krch('ㄹ', 'ㅓ', Cleared), Krch('ㅋ', 'ㅔ', Absent)]
  {
    PalatalizationOnIReohGe();
    AspirationOnIReohGe();
    TensificationOnIReoKe();
  }

  lemma PalatalizationOnIReohGe()
    ensures Palatalized([Krch('ㅇ', 'ㅣ', Absent), Krch('ㄹ', 'ㅓ', Final('ㅎ')), Krch('ㄱ', 'ㅔ', Absent)])
            == [Krch('ㅇ', 'ㅣ', Absent), Krch('ㄹ', 'ㅓ', Final('ㅎ')), Krch('ㄱ', 'ㅔ', Absent)]
  {
    var s := [Krch('ㅇ', 'ㅣ', Absent), Krch('ㄹ', 'ㅓ', Final('ㅎ')), Krch('ㄱ', 'ㅔ', Absent)];
    PairwiseOfThree(s[0], s[1], s[2], PalatalRule);
  }

  lemma AspirationOnIReohGe()
    ensures Aspirated([Krch('ㅇ', 'ㅣ', Absent), Krch('ㄹ', 'ㅓ', Final('ㅎ')), Krch('ㄱ', 'ㅔ', Absent)])
            == [Krch('ㅇ', 'ㅣ', Absent), Krch('ㄹ', 'ㅓ', Cleared), Krch('ㅋ', 'ㅔ', Absent)]
  {
    var s := [Krch('ㅇ', 'ㅣ', Absent), Krch('ㄹ', 'ㅓ', Final('ㅎ')), Krch('ㄱ', 'ㅔ', Absent)];
    PairwiseOfThree(s[0], s[1], s[2], AspirationRule);
  }

  lemma TensificationOnIReoKe()
    ensures Tensified([Krch('ㅇ', 'ㅣ', Absent), Krch('ㄹ', 'ㅓ', Cleared), Krch('ㅋ', 'ㅔ', Absent)])
            == [Krch('ㅇ', 'ㅣ', Absent), Krch('ㄹ', 'ㅓ', Cleared), Krch('ㅋ', 'ㅔ', Absent)]
  {
    var s := [Krch('ㅇ', 'ㅣ', Absent), Krch('ㄹ', 'ㅓ', Cleared), Krch('ㅋ', 'ㅔ', Absent)];
    PairwiseOfThree(s[0], s[1], s[2], TensionRule);
  }

  lemma EndingRuleFirstOnIReohGe()
    ensures EndingRuleFirst([Krch('ㅇ', 'ㅣ', Absent), Krch('ㄹ', 'ㅓ', Final('ㅎ')), Krch('ㄱ', 'ㅔ', Absent)])
            == [Krch('ㅇ', 'ㅣ', Absent), Krch('ㄹ', 'ㅓ', Final('ㄷ')), Krch('ㄲ', 'ㅔ', Absent)]
  {
    assert Neutralized([Krch('ㅇ', 'ㅣ', Absent), Krch('ㄹ', 'ㅓ', Final('ㅎ')), Krch('ㄱ', 'ㅔ', Absent)]) == [Krch('ㅇ', 'ㅣ', Absent), Krch('ㄹ', 'ㅓ', Final('ㄷ')), Krch('ㄱ', 'ㅔ', Absent)];
    PalatalizationOnIReotGe();
    AspirationOnIReotGe();
    TensificationOnIReotGe();
  }

  lemma PalatalizationOnIReotGe()
    ensures Palatalized([Krch('ㅇ', 'ㅣ', Absent), Krch('ㄹ', 'ㅓ', Final('ㄷ')), Krch('ㄱ', 'ㅔ', Absent)])
            == [Krch('ㅇ', 'ㅣ', Absent), Krch('ㄹ', 'ㅓ', Final('ㄷ')), Krch('ㄱ', 'ㅔ', Absent)]
  {
    var s := [Krch('ㅇ', 'ㅣ', Absent), Krch('ㄹ', 'ㅓ', Final('ㄷ')), Krch('ㄱ', 'ㅔ', Absent)];
    PairwiseOfThree(s[0], s[1], s[2], PalatalRule);
  }

  lemma AspirationOnIReotGe()
    ensures Aspirated([Krch('ㅇ', 'ㅣ', Absent), Krch('ㄹ', 'ㅓ', Final('ㄷ')), Krch('ㄱ', 'ㅔ', Absent)])
            == [Krch('ㅇ', 'ㅣ', Absent), Krch('ㄹ', 'ㅓ', Final('ㄷ')), Krch('ㄱ', 'ㅔ', Absent)]
  {
    var s := [Krch('ㅇ', 'ㅣ', Absent), Krch('ㄹ', 'ㅓ', Final('ㄷ')), Krch('ㄱ', 'ㅔ', Absent)];
    PairwiseOfThree(s[0], s[1], s[2], AspirationRule);
  }

  lemma TensificationOnIReotGe()
    ensures Tensified([Krch('ㅇ', 'ㅣ', Absent), Krch('ㄹ', 'ㅓ', Final('ㄷ')), Krch('ㄱ', 'ㅔ', Absent)])
            == [Krch('ㅇ', 'ㅣ', Absent), Krch('ㄹ', 'ㅓ', Final('ㄷ')), Krch('ㄲ', 'ㅔ', Absent)]
  {
    var s := [Krch('ㅇ', 'ㅣ', Absent), Krch('ㄹ', 'ㅓ', Final('ㄷ')), Krch('ㄱ', 'ㅔ', Absent)];
    PairwiseOfThree(s[0], s[1], s[2], TensionRule);
  }

  lemma PassesOnGudI()
    ensures Pronounced([Krch('ㄱ', 'ㅜ', Final('ㄷ')), Krch('ㅇ', 'ㅣ', Absent)])
            == [Krch('ㄱ', 'ㅜ', Cleared), Krch('ㅈ', 'ㅣ', Absent)]
  {
    var s0 := [Krch('ㄱ', 'ㅜ', Final('ㄷ')), Krch('ㅇ', 'ㅣ', Absent)];
    var s1 := [Krch('ㄱ', 'ㅜ', Cleared), Krch('ㅈ', 'ㅣ', Absent)];
    PairwiseOfTwo(s0[0], s0[1], PalatalRule);
    PairwiseOfTwo(s1[0], s1[1], AspirationRule);
    PairwiseOfTwo(s1[0], s1[1], TensionRule);
  }

  lemma PassesOnDamDa()
    ensures Pronounced([Krch('ㄷ', 'ㅏ', Final('ㅁ')), Krch('ㄷ', 'ㅏ', Absent)])
            == [Krch('ㄷ', 'ㅏ', Final('ㅁ')), Krch('ㄸ', 'ㅏ', Absent)]
  {
    var s0 := [Krch('ㄷ', 'ㅏ', Final('ㅁ')), Krch('ㄷ', 'ㅏ', Absent)];
    PairwiseOfTwo(s0[0], s0[1], PalatalRule);
    PairwiseOfTwo(s0[0], s0[1], AspirationRule);
    PairwiseOfTwo(s0[0], s0[1], TensionRule);
  }

  lemma PassesOnDatHin()
    ensures Pronounced([Krch('ㄷ', 'ㅏ', Final('ㄷ')), Krch('ㅎ', 'ㅣ', Final('ㄴ'))])
            == [Krch('ㄷ', 'ㅏ', Cleared), Krch('ㅊ', 'ㅣ', Final('ㄴ'))]
  {
    var s0 := [Krch('ㄷ', 'ㅏ', Final('ㄷ')), Krch('ㅎ', 'ㅣ', Final('ㄴ'))];
    var s1 := [Krch('ㄷ', 'ㅏ', Cleared), Krch('ㅊ', 'ㅣ', Final('ㄴ'))];
    PairwiseOfTwo(s0[0], s0[1], PalatalRule);
    PairwiseOfTwo(s1[0], s1[1], AspirationRule);
    PairwiseOfTwo(s1[0], s1[1], TensionRule);
  }

  /** 볕이 is pronounced 벼치: palatalization turns the coda ㅌ into the
      onset ㅊ before the ending rule can turn it into ㄷ. */
  lemma Byeochi()
    ensures Printed(Pronounced(DecodeWord(CodeUnits("볕이")))) == Printed(DecodeWord(CodeUnits("벼치")))
  {
    ByeotISpelled();
    ByeoChiSpelled();
    PassesOnByeotI();
  }

  /** 이렇게 is pronounced 이러케: aspiration merges ㅎ and ㄱ into ㅋ before
      the ending rule can turn the coda ㅎ into ㄷ. */
  lemma Ireoke()
    ensures Printed(Pronounced(DecodeWord(CodeUnits("이렇게")))) == Printed(DecodeWord(CodeUnits("이러케")))
  {
    IReohGeSpelled();
    IReoKeSpelled();
    PassesOnIReohGe();
  }

  /** 굳이 is pronounced 구지. */
  lemma Guji()
    ensures Printed(Pronounced(DecodeWord(CodeUnits("굳이")))) == Printed(DecodeWord(CodeUnits("구지")))
  {
    GudISpelled();
    GuJiSpelled();
    PassesOnGudI();
  }

  /** 담다 is pronounced 담따: ㄷ after the coda ㅁ becomes tense. */
  lemma Damtta()
    ensures Pronounced(DecodeWord(CodeUnits("담다"))) == DecodeWord(CodeUnits("담따"))
  {
    DamDaSpelled();
    DamTtaSpelled();
    PassesOnDamDa();
  }

  /** A coda on the second unit does not block palatalization: 닫힌 is
      pronounced 다친. */
  lemma Dachin()
    ensures Printed(Pronounced(DecodeWord(CodeUnits("닫힌")))) == Printed(DecodeWord(CodeUnits("다친")))
  {
    DatHinSpelled();
    DaChinSpelled();
    PassesOnDatHin();
  }

  /** The order matters: with the ending rule first, 볕이 would come out as
      벼지 and 이렇게 as 이럳께. */
  lemma EndingRuleFirstGoesWrong()
    ensures Printed(EndingRuleFirst(DecodeWord(CodeUnits("볕이")))) == Printed(DecodeWord(CodeUnits("벼지")))
    ensures EndingRuleFirst(DecodeWord(CodeUnits("이렇게"))) == DecodeWord(CodeUnits("이럳께"))
  {
    ByeotISpelled();
    ByeoJiSpelled();
    IReohGeSpelled();
    IReotKkeSpelled();
    EndingRuleFirstOnByeotI();
    EndingRuleFirstOnIReohGe();
  }
}
