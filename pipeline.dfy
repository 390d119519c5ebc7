/** The driver `pipe` of index.ts: validate, decode into an array, run the
    four passes in their fixed order. The source prints the units and returns
    nothing; here the units are returned, and `false` for an invalid input
    becomes None. */
module Pipeline {
  import opened Hangul
  import opened Rules
  import opened Passes

  datatype Option<T> = None | Some(value: T)

  /** Every code unit decoded, in order. */
  function DecodeWord(words: seq<CodeUnit>): (s: seq<Krch>)
    requires AllSyllables(words)
    ensures |s| == |words|
    ensures AllWellFormed(s)
    ensures forall k :: 0 <= k < |s| ==> s[k].jongSeong != Cleared
  {
    DecodedInTables(words);
    seq(|words|, i requires 0 <= i < |words| => ParseKorean(words[i]))
  }

  lemma DecodedInTables(words: seq<CodeUnit>)
    requires AllSyllables(words)
    ensures forall i :: 0 <= i < |words| ==>
              WellFormed(ParseKorean(words[i])) && ParseKorean(words[i]).jongSeong != Cleared
  {
    forall i | 0 <= i < |words|
      ensures WellFormed(ParseKorean(words[i])) && ParseKorean(words[i]).jongSeong != Cleared
    {
      ParseKoreanInTables(words[i]);
    }
  }

  /** On the word pipe decodes, the palatalization skip test at pair
      (k, k + 1) is just "the nucleus of syllable k + 1 is not a front vowel",
      since no decoded coda is the empty string. */
  lemma DecodedPalatalSkip(words: seq<CodeUnit>, k: nat)
    requires AllSyllables(words) && k + 1 < |words|
    ensures PalatalSkip(DecodeWord(words)[k + 1]) <==> ParseKorean(words[k + 1]).jungSeong !in PalatalVowels
  {
    PalatalSkipOnDecoded(DecodeWord(words)[k + 1]);
  }

  /** The passes in the order pipe runs them: palatalization, aspiration,
      the syllable-ending rule, tensification. */
  function Pronounced(s: seq<Krch>): seq<Krch> {
    Tensified(Neutralized(Aspirated(Palatalized(s))))
  }

  /** The loop of pipe that decodes every code unit and pushes the record. */
  method ParseAll(words: seq<CodeUnit>) returns (units: seq<Krch>)
    requires AllSyllables(words)
    ensures units == DecodeWord(words)
  {
    units := [];
    for i := 0 to |words|
      invariant |units| == i
      invariant forall k :: 0 <= k < i ==> units[k] == ParseKorean(words[k])
    {
      var res := ParseKorean(words[i]);
      units := units + [res];
    }
    assert forall k :: 0 <= k < |words| ==> units[k] == DecodeWord(words)[k];
  }

  /** pipe, minus the printing. */
  method Pipe(words: seq<CodeUnit>) returns (r: Option<seq<Krch>>)
    ensures r.None? <==> !AllSyllables(words)
    ensures r.Some? ==> AllSyllables(words) && r.value == Pronounced(DecodeWord(words))
  {
    var isKorean := IsKoreanWord(words);
    if !isKorean {
      return None;
    }
    var units := ParseAll(words);
    var krchArray := new Krch[|units|](k requires 0 <= k < |units| => units[k]);
    assert krchArray[..] == units;
    Palatalization(krchArray);
    Aspiration(krchArray);
    SyllableEndingRule(krchArray);
    Tensification(krchArray);
    return Some(krchArray[..]);
  }

  /** What pipe's output is made of: one unit per input code unit, each
      nucleus the decoded one, every field inside its table, every coda a
      form the ending rule leaves alone, and no plain onset after a tensing
      coda. */
  lemma PronouncedShape(words: seq<CodeUnit>)
    requires AllSyllables(words)
    ensures var r := Pronounced(DecodeWord(words));
            |r| == |words|
            && (forall k :: 0 <= k < |r| ==> r[k].jungSeong == ParseKorean(words[k]).jungSeong)
            && AllWellFormed(r)
            && (forall k :: 0 <= k < |r| ==> EndingRule(r[k].jongSeong) == r[k].jongSeong)
            && (forall k :: 0 <= k < |r| - 1 ==>
                  r[k].jongSeong in TensingCodas ==> r[k + 1].choSeong !in PlainOnsets)
  {
    var s0 := DecodeWord(words);
    var s1 := Palatalized(s0);
    var s2 := Aspirated(s1);
    var s3 := Neutralized(s2);
    PassesKeepWellFormed(s0);
    PassesKeepWellFormed(s1);
    PassesKeepWellFormed(s2);
    PassesKeepWellFormed(s3);
    NeutralizedCodas(s2);
    TensificationKeepsCodas(s3);
    TensificationComplete(s3);
    forall k | 0 <= k < |s3|
      ensures EndingRule(s3[k].jongSeong) == s3[k].jongSeong
    {
      EndingRuleIdempotent(s2[k].jongSeong);
    }
  }
}
