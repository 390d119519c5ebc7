/** The symbol tables, the syllable record, the validator and the decoder of
    the Korean pronunciation pipeline (index.ts).

    Decoding follows the Hangul syllable arithmetic of the Unicode Standard,
    section 3.12 "Conjoining Jamo Behavior": a composed syllable at code point
    0xAC00 + offset has onset offset / 588, nucleus (offset mod 588) / 28 and
    coda offset mod 28, where coda 0 means "no coda".
 */
module Hangul {

  /** A UTF-16 code unit: one element of a JavaScript string. */
  type CodeUnit = n: int | 0 <= n < 0x1_0000

  /** First and last composed Hangul syllable (UniKR.start, UniKR.end). */
  const Start: int := 44032
  const End: int := 55203

  /** The 19 onsets (UniKR.choSeong). */
  const ChoSeong: seq<char> := [
    'ㄱ', 'ㄲ', 'ㄴ', 'ㄷ', 'ㄸ', 'ㄹ', 'ㅁ',
    'ㅂ', 'ㅃ', 'ㅅ', 'ㅆ', 'ㅇ', 'ㅈ', 'ㅉ',
    'ㅊ', 'ㅋ', 'ㅌ', 'ㅍ', 'ㅎ'
  ]

  /** The 21 nuclei (UniKR.jungSeong). */
  const JungSeong: seq<char> := [
    'ㅏ', 'ㅐ', 'ㅑ', 'ㅒ', 'ㅓ', 'ㅔ', 'ㅕ',
    'ㅖ', 'ㅗ', 'ㅘ', 'ㅙ', 'ㅚ', 'ㅛ', 'ㅜ',
    'ㅝ', 'ㅞ', 'ㅟ', 'ㅠ', 'ㅡ', 'ㅢ', 'ㅣ'
  ]

  /** The value held in a unit's coda field (KRCH.jongSeong: string | null).
      The source has two spellings of "no coda": the decoder stores null
      (Absent), while the rewrite rules store the empty string (Cleared). They
      are kept apart because one guard of the palatalization pass compares
      against the empty string only. */
  datatype Jong = Absent | Cleared | Final(c: char)

  /** The 28 coda slots (UniKR.jongSeong); slot 0 is the empty string. */
  const JongSeong: seq<Jong> := [
    Cleared, Final('ㄱ'), Final('ㄲ'), Final('ㄳ'), Final('ㄴ'), Final('ㄵ'), Final('ㄶ'),
    Final('ㄷ'), Final('ㄹ'), Final('ㄺ'), Final('ㄻ'), Final('ㄼ'), Final('ㄽ'), Final('ㄾ'),
    Final('ㄿ'), Final('ㅀ'), Final('ㅁ'), Final('ㅂ'), Final('ㅄ'), Final('ㅅ'), Final('ㅆ'),
    Final('ㅇ'), Final('ㅈ'), Final('ㅊ'), Final('ㅋ'), Final('ㅌ'), Final('ㅍ'), Final('ㅎ')
  ]

  /** One decoded syllable (class KRCH): onset, nucleus and coda. The source
      keeps KRCH objects in an array, one object per slot and never shared, so
      a record value per slot has the same behaviour. */
  datatype Krch = Krch(choSeong: char, jungSeong: char, jongSeong: Jong)

  /** Every field is drawn from its table, the coda possibly null. */
  predicate ValidJong(j: Jong) {
    j == Absent || j in JongSeong
  }

  predicate WellFormed(k: Krch) {
    k.choSeong in ChoSeong && k.jungSeong in JungSeong && ValidJong(k.jongSeong)
  }

  predicate InSyllableBlock(u: int) {
    Start <= u <= End
  }

  /** The property isKoreanWord decides. */
  predicate AllSyllables(str: seq<CodeUnit>) {
    forall i :: 0 <= i < |str| ==> InSyllableBlock(str[i])
  }

  /** isKoreanWord: false as soon as one code unit lies outside the block. */
  method IsKoreanWord(str: seq<CodeUnit>) returns (ok: bool)
    ensures ok <==> AllSyllables(str)
    ensures |str| == 0 ==> ok
  {
    for i := 0 to |str|
      invariant forall k :: 0 <= k < i ==> InSyllableBlock(str[k])
    {
      var unicode := str[i];
      if unicode < Start || unicode > End {
        return false;
      }
    }
    return true;
  }

  /** parseKorean: split one composed syllable into its three fields. A zero
      coda index gives a null coda. What the result satisfies is stated by
      ParseKoreanInTables, ParseKoreanLossless and ParseKoreanOfCode below. */
  function ParseKorean(ch: CodeUnit): Krch
    requires InSyllableBlock(ch)
  {
    var offset := ch - Start;
    var cho := offset / 588;
    var jung := (offset - cho * 588) / 28;
    var jong := offset % 28;
    DecodeIndices(ch);
    Krch(ChoSeong[cho], JungSeong[jung], if jong != 0 then JongSeong[jong] else Absent)
  }

  /** Every field parseKorean returns is drawn from its table, and the coda
      is null exactly when the coda index is 0, never the empty string. */
  lemma ParseKoreanInTables(ch: CodeUnit)
    requires InSyllableBlock(ch)
    ensures var k := ParseKorean(ch);
            WellFormed(k) && k.jongSeong != Cleared
            && (k.jongSeong == Absent <==> (ch - Start) % 28 == 0)
  {
    var cho, jung, jong := ParsedIndices(ch);
    CodaSlotsFinal();
    assert ChoSeong[cho] in ChoSeong && JungSeong[jung] in JungSeong && JongSeong[jong] in JongSeong;
  }

  /** The three indices parseKorean computes are in range, the nucleus index
      is the Unicode formula (offset mod 588) / 28, and together they
      recompose the code point. */
  lemma DecodeIndices(ch: CodeUnit)
    requires InSyllableBlock(ch)
    ensures var offset := ch - Start;
            var cho := offset / 588;
            var jung := (offset - cho * 588) / 28;
            var jong := offset % 28;
            cho < |ChoSeong| && jung < |JungSeong| && jong < |JongSeong|
            && jung == (offset % 588) / 28
            && Start + cho * 588 + jung * 28 + jong == ch
  {
  }

  /** Every coda slot but the first holds a letter. */
  lemma CodaSlotsFinal()
    ensures forall i :: 0 < i < |JongSeong| ==> JongSeong[i].Final?
  {
  }

  predicate Distinct<T(==)>(t: seq<T>) {
    forall i, j :: 0 <= i < j < |t| ==> t[i] != t[j]
  }

  /** The tables are in code-point order, which makes them free of repeats. */
  predicate Ascending(keys: seq<int>) {
    forall i :: 0 <= i < |keys| - 1 ==> keys[i] < keys[i + 1]
  }

  lemma AscendingApart(keys: seq<int>, i: nat, j: nat)
    requires Ascending(keys) && i < j < |keys|
    ensures keys[i] < keys[j]
    decreases j - i
  {
    if i + 1 < j {
      AscendingApart(keys, i + 1, j);
    }
  }

  /** The order key of a coda slot: its letter's code point, 0 for the
      empty string. */
  function CodaKey(j: Jong): int {
    match j
    case Absent => -1
    case Cleared => 0
    case Final(c) => c as int
  }

  lemma ChoSeongDistinct()
    ensures Distinct(ChoSeong)
  {
    var keys := seq(|ChoSeong|, i requires 0 <= i < |ChoSeong| => ChoSeong[i] as int);
    assert Ascending(keys);
    forall i, j | 0 <= i < j < |ChoSeong|
      ensures ChoSeong[i] != ChoSeong[j]
    {
      AscendingApart(keys, i, j);
    }
  }

  lemma JungSeongDistinct()
    ensures Distinct(JungSeong)
  {
    var keys := seq(|JungSeong|, i requires 0 <= i < |JungSeong| => JungSeong[i] as int);
    assert Ascending(keys);
    forall i, j | 0 <= i < j < |JungSeong|
      ensures JungSeong[i] != JungSeong[j]
    {
      AscendingApart(keys, i, j);
    }
  }

  lemma JongSeongDistinct()
    ensures Distinct(JongSeong)
  {
    var keys := seq(|JongSeong|, i requires 0 <= i < |JongSeong| => CodaKey(JongSeong[i]));
    assert Ascending(keys);
    forall i, j | 0 <= i < j < |JongSeong|
      ensures JongSeong[i] != JongSeong[j]
    {
      AscendingApart(keys, i, j);
    }
  }

  /** Position of a table entry. */
  function IndexOf<T(==)>(t: seq<T>, x: T): (i: nat)
    requires x in t
    ensures i < |t| && t[i] == x
  {
    if t[0] == x then 0 else 1 + IndexOf(t[1..], x)
  }

  lemma IndexOfDistinct<T>(t: seq<T>, i: nat)
    requires Distinct(t) && i < |t|
    ensures IndexOf(t, t[i]) == i
  {
  }

  /** Coda slot of a coda value; null and the empty string both take slot 0. */
  function JongIndex(j: Jong): (i: nat)
    requires ValidJong(j)
    ensures i < |JongSeong|
    ensures i == 0 <==> (j == Absent || j == Cleared)
  {
    if j == Absent then 0 else IndexOf(JongSeong, j)
  }

  /** The code point of a unit under the Unicode composition formula. The
      source never recomposes; this serves to state that decoding is lossless. */
  ghost function SyllableCode(k: Krch): int
    requires WellFormed(k)
  {
    Start + IndexOf(ChoSeong, k.choSeong) * 588 + IndexOf(JungSeong, k.jungSeong) * 28
      + JongIndex(k.jongSeong)
  }

  /** Every well-formed unit has a code point inside the syllable block. */
  lemma SyllableCodeInBlock(k: Krch)
    requires WellFormed(k)
    ensures InSyllableBlock(SyllableCode(k))
  {
    var cho := IndexOf(ChoSeong, k.choSeong);
    var jung := IndexOf(JungSeong, k.jungSeong);
    var jong := JongIndex(k.jongSeong);
    assert cho <= 18 && jung <= 20 && jong <= 27;
  }

  /** The three table indices parseKorean uses, named: each in range, and
      together they recompose the code point. */
  lemma ParsedIndices(ch: CodeUnit) returns (cho: nat, jung: nat, jong: nat)
    requires InSyllableBlock(ch)
    ensures cho < |ChoSeong| && jung < |JungSeong| && jong < |JongSeong|
    ensures Start + cho * 588 + jung * 28 + jong == ch && jong == (ch - Start) % 28
    ensures ParseKorean(ch) == Krch(ChoSeong[cho], JungSeong[jung], if jong == 0 then Absent else JongSeong[jong])
  {
    DecodeIndices(ch);
    var offset := ch - Start;
    cho, jung, jong := offset / 588, (offset - offset / 588 * 588) / 28, offset % 28;
  }

  /** Decoding loses nothing: the fields parseKorean returns recompose to the
      input code point. */
  lemma ParseKoreanLossless(ch: CodeUnit)
    requires InSyllableBlock(ch)
    ensures WellFormed(ParseKorean(ch)) && SyllableCode(ParseKorean(ch)) == ch
  {
    ParseKoreanInTables(ch);
    var cho, jung, jong := ParsedIndices(ch);
    var k := ParseKorean(ch);
    ChoSlot(cho);
    JungSlot(jung);
    assert JongIndex(k.jongSeong) == jong by {
      if jong != 0 {
        JongSlot(jong);
      }
    }
    assert SyllableCode(k) == Start + cho * 588 + jung * 28 + jong;
  }

  /** Each table entry is found at its own position. */
  lemma ChoSlot(i: nat)
    requires i < |ChoSeong|
    ensures IndexOf(ChoSeong, ChoSeong[i]) == i
  {
    ChoSeongDistinct();
    IndexOfDistinct(ChoSeong, i);
  }

  lemma JungSlot(i: nat)
    requires i < |JungSeong|
    ensures IndexOf(JungSeong, JungSeong[i]) == i
  {
    JungSeongDistinct();
    IndexOfDistinct(JungSeong, i);
  }

  lemma JongSlot(i: nat)
    requires 0 < i < |JongSeong|
    ensures JongIndex(JongSeong[i]) == i
  {
    var j := JongSeong[i];
    assert j in JongSeong && j != Absent;
    JongSeongDistinct();
    IndexOfDistinct(JongSeong, i);
  }

  /** The composition formula is injective on in-range indices. */
  lemma ComposeInjective(cho: nat, jung: nat, jong: nat, cho': nat, jung': nat, jong': nat)
    requires cho < 19 && jung < 21 && jong < 28 && cho' < 19 && jung' < 21 && jong' < 28
    requires cho * 588 + jung * 28 + jong == cho' * 588 + jung' * 28 + jong'
    ensures cho == cho' && jung == jung' && jong == jong'
  {
    var offset := cho * 588 + jung * 28 + jong;
    assert offset / 588 == cho && offset / 588 == cho';
    assert offset % 28 == jong && offset % 28 == jong';
  }

  /** parseKorean inverts the composition formula on in-range indices. */
  lemma ParseKoreanOfIndices(cho: nat, jung: nat, jong: nat) returns (ch: CodeUnit)
    requires cho < |ChoSeong| && jung < |JungSeong| && jong < |JongSeong|
    ensures ch == Start + cho * 588 + jung * 28 + jong && InSyllableBlock(ch)
    ensures ParseKorean(ch) == Krch(ChoSeong[cho], JungSeong[jung], if jong == 0 then Absent else JongSeong[jong])
  {
    ch := Start + cho * 588 + jung * 28 + jong;
    var c, j, g := ParsedIndices(ch);
    ComposeInjective(c, j, g, cho, jung, jong);
  }

  /** Conversely every well-formed unit is the decoding of its code point, up
      to the spelling of "no coda": an empty-string coda decodes back as null. */
  lemma ParseKoreanOfCode(k: Krch)
    requires WellFormed(k)
    ensures InSyllableBlock(SyllableCode(k))
            && ParseKorean(SyllableCode(k)) == k.(jongSeong := if k.jongSeong == Cleared then Absent else k.jongSeong)
  {
    SyllableCodeInBlock(k);
    var ch := SyllableCode(k);
    var cho, jung, jong := ParsedIndices(ch);
    ComposeInjective(cho, jung, jong,
      IndexOf(ChoSeong, k.choSeong), IndexOf(JungSeong, k.jungSeong), JongIndex(k.jongSeong));
  }

  /** KRCH.getOrigins: the three strings printed for a unit, a null coda
      printed as the empty string. */
  function Origins(k: Krch): (o: seq<string>)
    ensures |o| == 3 && o[0] == [k.choSeong] && o[1] == [k.jungSeong]
    ensures o[2] == "" <==> k.jongSeong == Absent || k.jongSeong == Cleared
  {
    [[k.choSeong], [k.jungSeong], match k.jongSeong case Final(c) => [c] case _ => ""]
  }
}
